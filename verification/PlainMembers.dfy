/**
 The plain assignments of the server's block writer: the members it fills from the latest
 readings, and that under each published name a client reads the value meant for it.
 */
module PlainMembers {
  import opened Bytes
  import opened IPCData
  import opened BlockSchema
  import opened BlockAccess
  import opened Options
  import opened Publication

  /** The four bytes of a `float`. */
  type Float32 = b: seq<Byte> | |b| == 4 witness [0, 0, 0, 0]

  type Int32 = n: int | -0x8000_0000 <= n < 0x8000_0000

  /** 500.0f */
  const FIVE_HUNDRED: Float32 := [0, 0, 0xFA, 0x43]

  /** What the collectors delivered; texts are C strings. */
  datatype Readings = Readings(
    cpuName: seq<Byte>, physicalCores: Int32, performanceCores: Int32, efficiencyCores: Int32,
    cpuUsage: Float32, pCoreFreq: Float32, eCoreFreq: Float32, cpuTemp: Float32,
    totalMemory: nat, usedMemory: nat, availableMemory: nat, compressedMemory: nat, swapUsed: nat, swapTotal: nat,
    ramSpeed: nat, ramType: seq<Byte>,
    batteryPercent: Int32, acOnline: bool, cpuPower: Float32, gpuPower: Float32, anePower: Float32,
    osVersion: seq<Byte>, hardwareModel: seq<Byte>,
    gpuName: seq<Byte>, gpuMemory: nat, gpuMemoryPercent: Float32, gpuUsage: Float32, gpuTemp: Float32, gpuFreq: Float32,
    ssid: seq<Byte>, rssi: Int32, channel: Int32, security: seq<Byte>, wifiPowerOn: bool, isConnected: bool,
    bluetoothPowerOn: bool, deviceCount: nat, bluetoothName: seq<Byte>)

  // ----- assignments ------------------------------------------------------------

  /** Some bytes assigned to a place. */
  datatype Put = Put(at: nat, bytes: seq<Byte>)

  function Number(at: nat, size: nat, v: int): (p: Put)
    requires size == 1 || size == 4 || size == 8
    ensures p.at == at && |p.bytes| == size
  {
    Put(at, LowBytes(v % Range(size), size))
  }

  /** How many values `size` bytes hold. */
  function Range(size: nat): (n: nat)
    requires size == 1 || size == 4 || size == 8
    ensures n > 0
  {
    if size == 1 then 0x100 else if size == 4 then 0x1_0000_0000 else 0x1_0000_0000_0000_0000
  }

  /** A text cut to its room, filled up with zeros. */
  function TextPut(at: nat, size: nat, text: seq<Byte>): (p: Put)
    requires size > 0
    ensures p.at == at && |p.bytes| == size
  {
    Put(at, TextBytes(Zeros(size), text))
  }

  function FlagPut(at: nat, flag: bool): (p: Put)
    ensures p.at == at && |p.bytes| == 1
  {
    Number(at, 1, if flag then 1 else 0)
  }

  /** Assignments within a range, each behind the one before. */
  predicate Ascending(ps: seq<Put>, lo: nat, hi: nat) {
    && lo <= hi
    && (forall i | 0 <= i < |ps| :: lo <= ps[i].at && ps[i].at + |ps[i].bytes| <= hi)
    && (forall i, j | 0 <= i < j < |ps| :: ps[i].at + |ps[i].bytes| <= ps[j].at)
  }

  function PutAll(m: seq<Byte>, ps: seq<Put>): (r: seq<Byte>)
    requires forall i | 0 <= i < |ps| :: ps[i].at + |ps[i].bytes| <= |m|
    ensures |r| == |m|
    decreases |ps|
  {
    if ps == [] then m
    else
      var n := |ps| - 1;
      Written(PutAll(m, ps[..n]), ps[n].at, ps[n].bytes)
  }

  predicate Has(m: seq<Byte>, p: Put) {
    p.at + |p.bytes| <= |m| && m[p.at..p.at + |p.bytes|] == p.bytes
  }

  predicate HasAll(m: seq<Byte>, ps: seq<Put>) { forall p | p in ps :: Has(m, p) }

  /** The same bytes outside of a range. */
  predicate SameBeside(m: seq<Byte>, r: seq<Byte>, lo: nat, hi: nat)
    requires lo <= hi <= |m| == |r|
  {
    r[..lo] == m[..lo] && r[hi..] == m[hi..]
  }

  lemma WrittenHas(m: seq<Byte>, q: Put, p: Put)
    requires q.at + |q.bytes| <= |m|
    ensures Has(Written(m, q.at, q.bytes), q)
    ensures Has(m, p) && (p.at + |p.bytes| <= q.at || q.at + |q.bytes| <= p.at) ==> Has(Written(m, q.at, q.bytes), p)
  {
    if Has(m, p) && (p.at + |p.bytes| <= q.at || q.at + |q.bytes| <= p.at) {
      HeldOther(m, q.at, q.bytes, Entry("", 0, p.at, |p.bytes|));
    }
  }

  lemma WrittenBeside(m: seq<Byte>, q: Put, lo: nat, hi: nat)
    requires lo <= q.at && q.at + |q.bytes| <= hi <= |m|
    ensures SameBeside(m, Written(m, q.at, q.bytes), lo, hi)
  {
  }

  /** Assignments in ascending order are all there afterwards, and nothing beside them has changed. */
  lemma {:induction false} PutAllHas(m: seq<Byte>, ps: seq<Put>, lo: nat, hi: nat)
    requires Ascending(ps, lo, hi) && hi <= |m|
    ensures HasAll(PutAll(m, ps), ps) && SameBeside(m, PutAll(m, ps), lo, hi)
    decreases |ps|
  {
    hide Has, Written;
    if ps != [] {
      var n := |ps| - 1;
      PutAllHas(m, ps[..n], lo, hi);
      var before := PutAll(m, ps[..n]);
      forall p | p in ps
        ensures Has(PutAll(m, ps), p)
      {
        var i :| 0 <= i < |ps| && ps[i] == p;
        if i < n {
          assert ps[..n][i] == p;
        }
        WrittenHas(before, ps[n], p);
      }
      WrittenBeside(before, ps[n], lo, hi);
    }
  }

  // ----- what a client reads of one assignment ----------------------------------

  function FlagUnder(fields: map<seq<Byte>, FieldDef>, m: seq<Byte>, name: string): Option<bool> {
    var b := Under(fields, m, name);
    if b.Some? && b.value != [] then Some(b.value[0] != 0) else None
  }

  predicate ShowsBytes(fields: map<seq<Byte>, FieldDef>, m: seq<Byte>, name: string, bytes: seq<Byte>) {
    Under(fields, m, name) == Some(bytes)
  }

  predicate ShowsText(fields: map<seq<Byte>, FieldDef>, m: seq<Byte>, name: string, text: seq<Byte>, room: nat) {
    TextUnder(fields, m, name) == Some(text[..Shorter(|text|, room)])
  }

  lemma PutIsRead(f: map<seq<Byte>, FieldDef>, all: seq<Entry>, m: seq<Byte>, e: Entry, p: Put)
    requires Has(m, p) && e.offset == p.at && e.size == |p.bytes|
    requires Serves(f, all, m) && e in all
    ensures Under(f, m, e.name) == Some(p.bytes) && ShowsBytes(f, m, e.name, p.bytes)
  {
    hide Serves, Under;
    EntryIsRead(f, all, m, e);
  }

  lemma TextIsRead(f: map<seq<Byte>, FieldDef>, all: seq<Entry>, m: seq<Byte>, e: Entry, text: seq<Byte>)
    requires e.size > 0 && Has(m, TextPut(e.offset, e.size, text)) && 0 !in text
    requires Serves(f, all, m) && e in all
    ensures ShowsText(f, m, e.name, text, e.size - 1)
  {
    hide Serves, Under, TextBytes, CString;
    PutIsRead(f, all, m, e, TextPut(e.offset, e.size, text));
    TextReadBack(Zeros(e.size), text);
  }

  lemma NumberIsRead(f: map<seq<Byte>, FieldDef>, all: seq<Entry>, m: seq<Byte>, e: Entry, v: int)
    requires e.size == 1 || e.size == 4 || e.size == 8
    requires Has(m, Number(e.offset, e.size, v))
    requires Serves(f, all, m) && e in all
    ensures NumberUnder(f, m, e.name) == Some(v % Range(e.size))
    ensures e.size == 4 ==> SignedUnder(f, m, e.name) == Some(ToInt32(v % 0x1_0000_0000))
  {
    hide Serves, Under, LowBytes, LittleEndian, Pow256;
    PutIsRead(f, all, m, e, Number(e.offset, e.size, v));
    PowValues();
    LittleEndianOfLowBytes(v % Range(e.size), e.size);
  }

  lemma SignedIsRead(f: map<seq<Byte>, FieldDef>, all: seq<Entry>, m: seq<Byte>, e: Entry, v: Int32)
    requires e.size == 4 && Has(m, Number(e.offset, 4, v))
    requires Serves(f, all, m) && e in all
    ensures SignedUnder(f, m, e.name) == Some(v)
  {
    hide Serves, Under;
    NumberIsRead(f, all, m, e, v);
  }

  lemma FlagIsRead(f: map<seq<Byte>, FieldDef>, all: seq<Entry>, m: seq<Byte>, e: Entry, flag: bool)
    requires e.size == 1 && Has(m, FlagPut(e.offset, flag))
    requires Serves(f, all, m) && e in all
    ensures FlagUnder(f, m, e.name) == Some(flag)
  {
    hide Serves, Under;
    PutIsRead(f, all, m, e, FlagPut(e.offset, flag));
  }

  // ----- the processor ---------------------------------------------------------

  function CpuPuts(d: Readings): (ps: seq<Put>)
    ensures |ps| == 12
  {
    [TextPut(CPU_NAME, 64, d.cpuName),
     Number(PHYSICAL_CORES, 1, d.physicalCores),
     Number(LOGICAL_CORES, 1, d.physicalCores),
     Number(PERFORMANCE_CORES, 1, d.performanceCores),
     Number(EFFICIENCY_CORES, 1, d.efficiencyCores),
     Put(CPU_USAGE, d.cpuUsage),
     Put(P_CORE_FREQ, d.pCoreFreq),
     Put(E_CORE_FREQ, d.eCoreFreq),
     Put(CPU_TEMP, d.cpuTemp),
     FlagPut(HYPER_THREADING, false),
     FlagPut(VIRTUALIZATION, false),
     Put(CPU_SAMPLE_INTERVAL_MS, FIVE_HUNDRED)]
  }

  /** Under its names a client reads the processor as delivered. */
  predicate ShowsCpu(f: map<seq<Byte>, FieldDef>, m: seq<Byte>, d: Readings) {
    && ShowsText(f, m, "cpu/name", d.cpuName, 63)
    && NumberUnder(f, m, "cpu/cores/physical") == Some(d.physicalCores % 0x100)
    && NumberUnder(f, m, "cpu/cores/logical") == Some(d.physicalCores % 0x100)
    && NumberUnder(f, m, "cpu/cores/performance") == Some(d.performanceCores % 0x100)
    && NumberUnder(f, m, "cpu/cores/efficiency") == Some(d.efficiencyCores % 0x100)
    && ShowsBytes(f, m, "cpu/usage", d.cpuUsage)
    && ShowsBytes(f, m, "cpu/freq/pCore", d.pCoreFreq)
    && ShowsBytes(f, m, "cpu/freq/eCore", d.eCoreFreq)
    && ShowsBytes(f, m, "cpu/temperature", d.cpuTemp)
    && FlagUnder(f, m, "cpu/hyperThreading") == Some(false)
    && FlagUnder(f, m, "cpu/virtualization") == Some(false)
    && ShowsBytes(f, m, "cpu/sampleIntervalMs", FIVE_HUNDRED)
  }

  lemma CpuEntries(all: seq<Entry>)
    requires forall e | e in Cpu() :: e in all
    ensures
      && Text("cpu/name", CPU_NAME, 64) in all
      && One("cpu/cores/physical", PHYSICAL_CORES) in all
      && One("cpu/cores/logical", LOGICAL_CORES) in all
      && One("cpu/cores/performance", PERFORMANCE_CORES) in all
      && One("cpu/cores/efficiency", EFFICIENCY_CORES) in all
      && Float("cpu/usage", CPU_USAGE) in all
      && Float("cpu/freq/pCore", P_CORE_FREQ) in all
      && Float("cpu/freq/eCore", E_CORE_FREQ) in all
      && Float("cpu/temperature", CPU_TEMP) in all
      && Flag("cpu/hyperThreading", HYPER_THREADING) in all
      && Flag("cpu/virtualization", VIRTUALIZATION) in all
      && Float("cpu/sampleIntervalMs", CPU_SAMPLE_INTERVAL_MS) in all
  {
  }

  lemma CpuValues(m: seq<Byte>, d: Readings)
    requires HasAll(m, CpuPuts(d))
    ensures
      && Has(m, TextPut(CPU_NAME, 64, d.cpuName))
      && Has(m, Number(PHYSICAL_CORES, 1, d.physicalCores))
      && Has(m, Number(LOGICAL_CORES, 1, d.physicalCores))
      && Has(m, Number(PERFORMANCE_CORES, 1, d.performanceCores))
      && Has(m, Number(EFFICIENCY_CORES, 1, d.efficiencyCores))
      && Has(m, Put(CPU_USAGE, d.cpuUsage))
      && Has(m, Put(P_CORE_FREQ, d.pCoreFreq))
      && Has(m, Put(E_CORE_FREQ, d.eCoreFreq))
      && Has(m, Put(CPU_TEMP, d.cpuTemp))
      && Has(m, FlagPut(HYPER_THREADING, false))
      && Has(m, FlagPut(VIRTUALIZATION, false))
      && Has(m, Put(CPU_SAMPLE_INTERVAL_MS, FIVE_HUNDRED))
  {
    hide Has, TextPut, Number, FlagPut;
  }

  lemma CpuIsRead(f: map<seq<Byte>, FieldDef>, all: seq<Entry>, m: seq<Byte>, d: Readings)
    requires HasAll(m, CpuPuts(d)) && 0 !in d.cpuName && Serves(f, all, m)
    requires forall e | e in Cpu() :: e in all
    ensures ShowsCpu(f, m, d)
  {
    hide HasAll, CpuPuts, Cpu, Serves, Under, ShowsBytes, ShowsText, NumberUnder, SignedUnder, FlagUnder, Has, TextPut;
    CpuEntries(all);
    CpuValues(m, d);
    TextIsRead(f, all, m, Text("cpu/name", CPU_NAME, 64), d.cpuName);
    NumberIsRead(f, all, m, One("cpu/cores/physical", PHYSICAL_CORES), d.physicalCores);
    NumberIsRead(f, all, m, One("cpu/cores/logical", LOGICAL_CORES), d.physicalCores);
    NumberIsRead(f, all, m, One("cpu/cores/performance", PERFORMANCE_CORES), d.performanceCores);
    NumberIsRead(f, all, m, One("cpu/cores/efficiency", EFFICIENCY_CORES), d.efficiencyCores);
    PutIsRead(f, all, m, Float("cpu/usage", CPU_USAGE), Put(CPU_USAGE, d.cpuUsage));
    PutIsRead(f, all, m, Float("cpu/freq/pCore", P_CORE_FREQ), Put(P_CORE_FREQ, d.pCoreFreq));
    PutIsRead(f, all, m, Float("cpu/freq/eCore", E_CORE_FREQ), Put(E_CORE_FREQ, d.eCoreFreq));
    PutIsRead(f, all, m, Float("cpu/temperature", CPU_TEMP), Put(CPU_TEMP, d.cpuTemp));
    FlagIsRead(f, all, m, Flag("cpu/hyperThreading", HYPER_THREADING), false);
    FlagIsRead(f, all, m, Flag("cpu/virtualization", VIRTUALIZATION), false);
    PutIsRead(f, all, m, Float("cpu/sampleIntervalMs", CPU_SAMPLE_INTERVAL_MS), Put(CPU_SAMPLE_INTERVAL_MS, FIVE_HUNDRED));
  }

  // ----- the memory ------------------------------------------------------------

  function MemoryPuts(d: Readings): (ps: seq<Put>)
    ensures |ps| == 8
  {
    [Number(TOTAL_MEMORY, 8, d.totalMemory),
     Number(USED_MEMORY, 8, d.usedMemory),
     Number(AVAILABLE_MEMORY, 8, d.availableMemory),
     Number(COMPRESSED_MEMORY, 8, d.compressedMemory),
     Number(SWAP_USED, 8, d.swapUsed),
     Number(SWAP_TOTAL, 8, d.swapTotal),
     Number(RAM_SPEED, 4, d.ramSpeed),
     TextPut(RAM_TYPE, 32, d.ramType)]
  }

  /** Under its names a client reads the memory as delivered. */
  predicate ShowsMemory(f: map<seq<Byte>, FieldDef>, m: seq<Byte>, d: Readings) {
    && NumberUnder(f, m, "memory/total") == Some(d.totalMemory % 0x1_0000_0000_0000_0000)
    && NumberUnder(f, m, "memory/used") == Some(d.usedMemory % 0x1_0000_0000_0000_0000)
    && NumberUnder(f, m, "memory/available") == Some(d.availableMemory % 0x1_0000_0000_0000_0000)
    && NumberUnder(f, m, "memory/compressed") == Some(d.compressedMemory % 0x1_0000_0000_0000_0000)
    && NumberUnder(f, m, "memory/swapUsed") == Some(d.swapUsed % 0x1_0000_0000_0000_0000)
    && NumberUnder(f, m, "memory/swapTotal") == Some(d.swapTotal % 0x1_0000_0000_0000_0000)
    && NumberUnder(f, m, "memory/ramSpeed") == Some(d.ramSpeed % 0x1_0000_0000)
    && ShowsText(f, m, "memory/ramType", d.ramType, 31)
  }

  lemma MemoryEntries(all: seq<Entry>)
    requires forall e | e in Memory() :: e in all
    ensures
      && Eight("memory/total", TOTAL_MEMORY) in all
      && Eight("memory/used", USED_MEMORY) in all
      && Eight("memory/available", AVAILABLE_MEMORY) in all
      && Eight("memory/compressed", COMPRESSED_MEMORY) in all
      && Eight("memory/swapUsed", SWAP_USED) in all
      && Eight("memory/swapTotal", SWAP_TOTAL) in all
      && Four("memory/ramSpeed", RAM_SPEED) in all
      && Text("memory/ramType", RAM_TYPE, 32) in all
  {
  }

  lemma MemoryValues(m: seq<Byte>, d: Readings)
    requires HasAll(m, MemoryPuts(d))
    ensures
      && Has(m, Number(TOTAL_MEMORY, 8, d.totalMemory))
      && Has(m, Number(USED_MEMORY, 8, d.usedMemory))
      && Has(m, Number(AVAILABLE_MEMORY, 8, d.availableMemory))
      && Has(m, Number(COMPRESSED_MEMORY, 8, d.compressedMemory))
      && Has(m, Number(SWAP_USED, 8, d.swapUsed))
      && Has(m, Number(SWAP_TOTAL, 8, d.swapTotal))
      && Has(m, Number(RAM_SPEED, 4, d.ramSpeed))
      && Has(m, TextPut(RAM_TYPE, 32, d.ramType))
  {
    hide Has, TextPut, Number, FlagPut;
  }

  lemma MemoryIsRead(f: map<seq<Byte>, FieldDef>, all: seq<Entry>, m: seq<Byte>, d: Readings)
    requires HasAll(m, MemoryPuts(d)) && 0 !in d.ramType && Serves(f, all, m)
    requires forall e | e in Memory() :: e in all
    ensures ShowsMemory(f, m, d)
  {
    hide HasAll, MemoryPuts, Memory, Serves, Under, ShowsBytes, ShowsText, NumberUnder, SignedUnder, FlagUnder, Has, TextPut;
    MemoryEntries(all);
    MemoryValues(m, d);
    NumberIsRead(f, all, m, Eight("memory/total", TOTAL_MEMORY), d.totalMemory);
    NumberIsRead(f, all, m, Eight("memory/used", USED_MEMORY), d.usedMemory);
    NumberIsRead(f, all, m, Eight("memory/available", AVAILABLE_MEMORY), d.availableMemory);
    NumberIsRead(f, all, m, Eight("memory/compressed", COMPRESSED_MEMORY), d.compressedMemory);
    NumberIsRead(f, all, m, Eight("memory/swapUsed", SWAP_USED), d.swapUsed);
    NumberIsRead(f, all, m, Eight("memory/swapTotal", SWAP_TOTAL), d.swapTotal);
    NumberIsRead(f, all, m, Four("memory/ramSpeed", RAM_SPEED), d.ramSpeed);
    TextIsRead(f, all, m, Text("memory/ramType", RAM_TYPE, 32), d.ramType);
  }

  // ----- battery and power -----------------------------------------------------

  function PowerPuts(d: Readings): (ps: seq<Put>)
    ensures |ps| == 5
  {
    [Number(BATTERY_PERCENT, 4, d.batteryPercent),
     FlagPut(AC_ONLINE, d.acOnline),
     Put(CPU_POWER, d.cpuPower),
     Put(GPU_POWER, d.gpuPower),
     Put(ANE_POWER, d.anePower)]
  }

  /** Under its names a client reads battery and power as delivered. */
  predicate ShowsPower(f: map<seq<Byte>, FieldDef>, m: seq<Byte>, d: Readings) {
    && SignedUnder(f, m, "battery/percent") == Some(d.batteryPercent)
    && FlagUnder(f, m, "battery/acOnline") == Some(d.acOnline)
    && ShowsBytes(f, m, "power/cpu", d.cpuPower)
    && ShowsBytes(f, m, "power/gpu", d.gpuPower)
    && ShowsBytes(f, m, "power/ane", d.anePower)
  }

  lemma PowerEntries(all: seq<Entry>)
    requires forall e | e in Battery() + Power() :: e in all
    ensures
      && Signed("battery/percent", BATTERY_PERCENT) in all
      && Flag("battery/acOnline", AC_ONLINE) in all
      && Float("power/cpu", CPU_POWER) in all
      && Float("power/gpu", GPU_POWER) in all
      && Float("power/ane", ANE_POWER) in all
  {
  }

  lemma PowerValues(m: seq<Byte>, d: Readings)
    requires HasAll(m, PowerPuts(d))
    ensures
      && Has(m, Number(BATTERY_PERCENT, 4, d.batteryPercent))
      && Has(m, FlagPut(AC_ONLINE, d.acOnline))
      && Has(m, Put(CPU_POWER, d.cpuPower))
      && Has(m, Put(GPU_POWER, d.gpuPower))
      && Has(m, Put(ANE_POWER, d.anePower))
  {
    hide Has, TextPut, Number, FlagPut;
  }

  lemma PowerIsRead(f: map<seq<Byte>, FieldDef>, all: seq<Entry>, m: seq<Byte>, d: Readings)
    requires HasAll(m, PowerPuts(d)) && Serves(f, all, m)
    requires forall e | e in Battery() + Power() :: e in all
    ensures ShowsPower(f, m, d)
  {
    hide HasAll, PowerPuts, Battery, Power, Serves, Has, TextPut;
    hide Under, ShowsBytes, ShowsText, NumberUnder, SignedUnder, FlagUnder;
    PowerEntries(all);
    PowerValues(m, d);
    SignedIsRead(f, all, m, Signed("battery/percent", BATTERY_PERCENT), d.batteryPercent);
    FlagIsRead(f, all, m, Flag("battery/acOnline", AC_ONLINE), d.acOnline);
    PutIsRead(f, all, m, Float("power/cpu", CPU_POWER), Put(CPU_POWER, d.cpuPower));
    PutIsRead(f, all, m, Float("power/gpu", GPU_POWER), Put(GPU_POWER, d.gpuPower));
    PutIsRead(f, all, m, Float("power/ane", ANE_POWER), Put(ANE_POWER, d.anePower));
  }

  // ----- the system and the GPU ------------------------------------------------

  function GpuPuts(d: Readings): (ps: seq<Put>)
    ensures |ps| == 9
  {
    [TextPut(OS_VERSION, 128, d.osVersion),
     TextPut(HARDWARE_MODEL, 128, d.hardwareModel),
     TextPut(GPU_NAME, 48, d.gpuName),
     Number(GPU_MEMORY, 8, d.gpuMemory),
     Put(GPU_MEMORY_PERCENT, d.gpuMemoryPercent),
     Put(GPU_USAGE, d.gpuUsage),
     Put(GPU_TEMP, d.gpuTemp),
     Put(GPU_FREQ, d.gpuFreq),
     FlagPut(GPU_IS_VIRTUAL, false)]
  }

  /** Under its names a client reads the system and the GPU as delivered; the GPU has a brand nobody fills. */
  predicate ShowsGpu(f: map<seq<Byte>, FieldDef>, m: seq<Byte>, d: Readings) {
    && ShowsText(f, m, "os/version", d.osVersion, 127)
    && ShowsText(f, m, "os/model", d.hardwareModel, 127)
    && ShowsText(f, m, "gpu/0/name", d.gpuName, 47)
    && NumberUnder(f, m, "gpu/0/memory") == Some(d.gpuMemory % 0x1_0000_0000_0000_0000)
    && ShowsBytes(f, m, "gpu/0/memoryPercent", d.gpuMemoryPercent)
    && ShowsBytes(f, m, "gpu/0/usage", d.gpuUsage)
    && ShowsBytes(f, m, "gpu/0/temperature", d.gpuTemp)
    && ShowsBytes(f, m, "gpu/freq", d.gpuFreq)
    && FlagUnder(f, m, "gpu/0/isVirtual") == Some(false)
  }

  lemma GpuEntries(all: seq<Entry>)
    requires forall e | e in Os() + Gpu() :: e in all
    ensures
      && Text("os/version", OS_VERSION, 128) in all
      && Text("os/model", HARDWARE_MODEL, 128) in all
      && Text("gpu/0/name", GPU_NAME, 48) in all
      && Eight("gpu/0/memory", GPU_MEMORY) in all
      && Float("gpu/0/memoryPercent", GPU_MEMORY_PERCENT) in all
      && Float("gpu/0/usage", GPU_USAGE) in all
      && Float("gpu/0/temperature", GPU_TEMP) in all
      && Float("gpu/freq", GPU_FREQ) in all
      && Flag("gpu/0/isVirtual", GPU_IS_VIRTUAL) in all
  {
  }

  lemma GpuValues(m: seq<Byte>, d: Readings)
    requires HasAll(m, GpuPuts(d))
    ensures
      && Has(m, TextPut(OS_VERSION, 128, d.osVersion))
      && Has(m, TextPut(HARDWARE_MODEL, 128, d.hardwareModel))
      && Has(m, TextPut(GPU_NAME, 48, d.gpuName))
      && Has(m, Number(GPU_MEMORY, 8, d.gpuMemory))
      && Has(m, Put(GPU_MEMORY_PERCENT, d.gpuMemoryPercent))
      && Has(m, Put(GPU_USAGE, d.gpuUsage))
      && Has(m, Put(GPU_TEMP, d.gpuTemp))
      && Has(m, Put(GPU_FREQ, d.gpuFreq))
      && Has(m, FlagPut(GPU_IS_VIRTUAL, false))
  {
    hide Has, TextPut, Number, FlagPut;
  }

  lemma GpuIsRead(f: map<seq<Byte>, FieldDef>, all: seq<Entry>, m: seq<Byte>, d: Readings)
    requires HasAll(m, GpuPuts(d)) && 0 !in d.osVersion && 0 !in d.hardwareModel && 0 !in d.gpuName && Serves(f, all, m)
    requires forall e | e in Os() + Gpu() :: e in all
    ensures ShowsGpu(f, m, d)
  {
    hide HasAll, GpuPuts, Os, Gpu, Serves, Under, ShowsBytes, ShowsText, NumberUnder, SignedUnder, FlagUnder, Has, TextPut;
    GpuEntries(all);
    GpuValues(m, d);
    TextIsRead(f, all, m, Text("os/version", OS_VERSION, 128), d.osVersion);
    TextIsRead(f, all, m, Text("os/model", HARDWARE_MODEL, 128), d.hardwareModel);
    TextIsRead(f, all, m, Text("gpu/0/name", GPU_NAME, 48), d.gpuName);
    NumberIsRead(f, all, m, Eight("gpu/0/memory", GPU_MEMORY), d.gpuMemory);
    PutIsRead(f, all, m, Float("gpu/0/memoryPercent", GPU_MEMORY_PERCENT), Put(GPU_MEMORY_PERCENT, d.gpuMemoryPercent));
    PutIsRead(f, all, m, Float("gpu/0/usage", GPU_USAGE), Put(GPU_USAGE, d.gpuUsage));
    PutIsRead(f, all, m, Float("gpu/0/temperature", GPU_TEMP), Put(GPU_TEMP, d.gpuTemp));
    PutIsRead(f, all, m, Float("gpu/freq", GPU_FREQ), Put(GPU_FREQ, d.gpuFreq));
    FlagIsRead(f, all, m, Flag("gpu/0/isVirtual", GPU_IS_VIRTUAL), false);
  }

  // ----- WiFi and Bluetooth ----------------------------------------------------

  function RadioPuts(d: Readings): (ps: seq<Put>)
    ensures |ps| == 9
  {
    [TextPut(WIFI_SSID, 32, d.ssid),
     Number(WIFI_RSSI, 4, d.rssi),
     Number(WIFI_CHANNEL, 4, d.channel),
     TextPut(WIFI_SECURITY, 16, d.security),
     FlagPut(WIFI_POWER_ON, d.wifiPowerOn),
     FlagPut(WIFI_IS_CONNECTED, d.isConnected),
     FlagPut(BLUETOOTH_POWER_ON, d.bluetoothPowerOn),
     Number(BLUETOOTH_DEVICE_COUNT, 4, d.deviceCount),
     TextPut(BLUETOOTH_NAME, 64, d.bluetoothName)]
  }

  /** Under its names a client reads WiFi and Bluetooth as delivered. */
  predicate ShowsRadio(f: map<seq<Byte>, FieldDef>, m: seq<Byte>, d: Readings) {
    && ShowsText(f, m, "wifi/ssid", d.ssid, 31)
    && SignedUnder(f, m, "wifi/rssi") == Some(d.rssi)
    && SignedUnder(f, m, "wifi/channel") == Some(d.channel)
    && ShowsText(f, m, "wifi/security", d.security, 15)
    && FlagUnder(f, m, "wifi/powerOn") == Some(d.wifiPowerOn)
    && FlagUnder(f, m, "wifi/isConnected") == Some(d.isConnected)
    && FlagUnder(f, m, "bluetooth/powerOn") == Some(d.bluetoothPowerOn)
    && SignedUnder(f, m, "bluetooth/deviceCount") == Some(ToInt32(d.deviceCount % 0x1_0000_0000))
    && ShowsText(f, m, "bluetooth/name", d.bluetoothName, 63)
  }

  lemma RadioEntries(all: seq<Entry>)
    requires forall e | e in Wifi() + Bluetooth() :: e in all
    ensures
      && Text("wifi/ssid", WIFI_SSID, 32) in all
      && Signed("wifi/rssi", WIFI_RSSI) in all
      && Signed("wifi/channel", WIFI_CHANNEL) in all
      && Text("wifi/security", WIFI_SECURITY, 16) in all
      && Flag("wifi/powerOn", WIFI_POWER_ON) in all
      && Flag("wifi/isConnected", WIFI_IS_CONNECTED) in all
      && Flag("bluetooth/powerOn", BLUETOOTH_POWER_ON) in all
      && Signed("bluetooth/deviceCount", BLUETOOTH_DEVICE_COUNT) in all
      && Text("bluetooth/name", BLUETOOTH_NAME, 64) in all
  {
  }

  lemma RadioValues(m: seq<Byte>, d: Readings)
    requires HasAll(m, RadioPuts(d))
    ensures
      && Has(m, TextPut(WIFI_SSID, 32, d.ssid))
      && Has(m, Number(WIFI_RSSI, 4, d.rssi))
      && Has(m, Number(WIFI_CHANNEL, 4, d.channel))
      && Has(m, TextPut(WIFI_SECURITY, 16, d.security))
      && Has(m, FlagPut(WIFI_POWER_ON, d.wifiPowerOn))
      && Has(m, FlagPut(WIFI_IS_CONNECTED, d.isConnected))
      && Has(m, FlagPut(BLUETOOTH_POWER_ON, d.bluetoothPowerOn))
      && Has(m, Number(BLUETOOTH_DEVICE_COUNT, 4, d.deviceCount))
      && Has(m, TextPut(BLUETOOTH_NAME, 64, d.bluetoothName))
  {
    hide Has, TextPut, Number, FlagPut;
  }

  lemma RadioIsRead(f: map<seq<Byte>, FieldDef>, all: seq<Entry>, m: seq<Byte>, d: Readings)
    requires HasAll(m, RadioPuts(d)) && 0 !in d.ssid && 0 !in d.security && 0 !in d.bluetoothName && Serves(f, all, m)
    requires forall e | e in Wifi() + Bluetooth() :: e in all
    ensures ShowsRadio(f, m, d)
  {
    hide HasAll, RadioPuts, Wifi, Bluetooth, Serves, Has, TextPut;
    hide Under, ShowsBytes, ShowsText, NumberUnder, SignedUnder, FlagUnder;
    RadioEntries(all);
    RadioValues(m, d);
    TextIsRead(f, all, m, Text("wifi/ssid", WIFI_SSID, 32), d.ssid);
    SignedIsRead(f, all, m, Signed("wifi/rssi", WIFI_RSSI), d.rssi);
    SignedIsRead(f, all, m, Signed("wifi/channel", WIFI_CHANNEL), d.channel);
    TextIsRead(f, all, m, Text("wifi/security", WIFI_SECURITY, 16), d.security);
    FlagIsRead(f, all, m, Flag("wifi/powerOn", WIFI_POWER_ON), d.wifiPowerOn);
    FlagIsRead(f, all, m, Flag("wifi/isConnected", WIFI_IS_CONNECTED), d.isConnected);
    FlagIsRead(f, all, m, Flag("bluetooth/powerOn", BLUETOOTH_POWER_ON), d.bluetoothPowerOn);
    NumberIsRead(f, all, m, Signed("bluetooth/deviceCount", BLUETOOTH_DEVICE_COUNT), d.deviceCount);
    TextIsRead(f, all, m, Text("bluetooth/name", BLUETOOTH_NAME, 64), d.bluetoothName);
  }

  // ----- in place, all together -------------------------------------------------

  lemma AscendingConcat(a: seq<Put>, b: seq<Put>, lo: nat, mid: nat, low: nat, hi: nat)
    requires Ascending(a, lo, mid) && Ascending(b, low, hi) && mid <= low
    ensures Ascending(a + b, lo, hi)
  {
  }

  lemma {:induction false} PutAllConcat(m: seq<Byte>, a: seq<Put>, b: seq<Put>)
    requires forall i | 0 <= i < |a| :: a[i].at + |a[i].bytes| <= |m|
    requires forall i | 0 <= i < |b| :: b[i].at + |b[i].bytes| <= |m|
    ensures (forall i | 0 <= i < |a + b| :: (a + b)[i].at + |(a + b)[i].bytes| <= |m|)
    ensures PutAll(m, a + b) == PutAll(PutAll(m, a), b)
    decreases |b|
  {
    hide Written;
    if b == [] {
      assert a + b == a;
    } else {
      var n := |b| - 1;
      assert (a + b)[..|a| + n] == a + b[..n];
      PutAllConcat(m, a, b[..n]);
    }
  }

  function PlainPuts(d: Readings): seq<Put> { CpuPuts(d) + MemoryPuts(d) + PowerPuts(d) + GpuPuts(d) }

  lemma CpuMemoryAscending(d: Readings)
    ensures Ascending(CpuPuts(d), CPU_NAME, TIMESTAMP) && Ascending(MemoryPuts(d), TOTAL_MEMORY, BATTERY_PERCENT)
  {
    hide Number, TextPut, FlagPut;
  }

  lemma PowerGpuAscending(d: Readings)
    ensures Ascending(PowerPuts(d), BATTERY_PERCENT, OS_VERSION) && Ascending(GpuPuts(d), OS_VERSION, DISKS)
  {
    hide Number, TextPut, FlagPut;
  }

  lemma RadioAscending(d: Readings)
    ensures Ascending(RadioPuts(d), WIFI_SSID, BLOCK_SIZE)
  {
    hide Number, TextPut, FlagPut;
  }

  lemma PlainAscending(d: Readings)
    ensures Ascending(PlainPuts(d), CPU_NAME, DISKS)
  {
    hide CpuPuts, MemoryPuts, PowerPuts, GpuPuts, Ascending;
    CpuMemoryAscending(d);
    PowerGpuAscending(d);
    var a, b, c, e := CpuPuts(d), MemoryPuts(d), PowerPuts(d), GpuPuts(d);
    AscendingConcat(a, b, CPU_NAME, TIMESTAMP, TOTAL_MEMORY, BATTERY_PERCENT);
    AscendingConcat(a + b, c, CPU_NAME, BATTERY_PERCENT, BATTERY_PERCENT, OS_VERSION);
    AscendingConcat(a + b + c, e, CPU_NAME, OS_VERSION, OS_VERSION, DISKS);
  }

  lemma AscendingFits(ps: seq<Put>, lo: nat, hi: nat)
    requires Ascending(ps, lo, hi)
    ensures forall i | 0 <= i < |ps| :: ps[i].at + |ps[i].bytes| <= hi
  {
  }

  /** The texts are C strings. */
  predicate AllTexts(d: Readings) {
    && 0 !in d.cpuName && 0 !in d.ramType && 0 !in d.osVersion && 0 !in d.hardwareModel && 0 !in d.gpuName
    && 0 !in d.ssid && 0 !in d.security && 0 !in d.bluetoothName
  }

  /** The block after the plain assignments, those before the slots and those behind them. */
  function WithReadings(m: seq<Byte>, d: Readings): (r: seq<Byte>)
    requires |m| == BLOCK_SIZE
    ensures |r| == BLOCK_SIZE
  {
    hide PlainPuts, RadioPuts, Ascending;
    PlainAscending(d);
    RadioAscending(d);
    AscendingFits(PlainPuts(d), CPU_NAME, DISKS);
    AscendingFits(RadioPuts(d), WIFI_SSID, BLOCK_SIZE);
    PutAll(PutAll(m, PlainPuts(d)), RadioPuts(d))
  }

  lemma HasKept(m: seq<Byte>, r: seq<Byte>, ps: seq<Put>, lo: nat, hi: nat, from: nat, to: nat)
    requires HasAll(m, ps) && Ascending(ps, lo, hi) && from <= to <= |m| == |r| && SameBeside(m, r, from, to)
    requires hi <= from
    ensures HasAll(r, ps)
  {
    forall p | p in ps
      ensures Has(r, p)
    {
      var i :| 0 <= i < |ps| && ps[i] == p;
      assert p.at + |p.bytes| <= from;
      assert r[p.at..p.at + |p.bytes|] == r[..from][p.at..p.at + |p.bytes|];
      assert m[p.at..p.at + |p.bytes|] == m[..from][p.at..p.at + |p.bytes|];
    }
  }

  /** Each assignment is in the block at the end; between the two runs of members nothing has changed. */
  lemma ReadingsAreStored(m: seq<Byte>, d: Readings)
    requires |m| == BLOCK_SIZE
    ensures
      && HasAll(WithReadings(m, d), PlainPuts(d)) && HasAll(WithReadings(m, d), RadioPuts(d))
      && WithReadings(m, d)[DISKS..WIFI_SSID] == m[DISKS..WIFI_SSID]
      && WithReadings(m, d)[..CPU_NAME] == m[..CPU_NAME]
  {
    hide PlainPuts, RadioPuts, Ascending, HasAll, PutAll;
    PlainAscending(d);
    RadioAscending(d);
    AscendingFits(PlainPuts(d), CPU_NAME, DISKS);
    AscendingFits(RadioPuts(d), WIFI_SSID, BLOCK_SIZE);
    var half := PutAll(m, PlainPuts(d));
    var r := PutAll(half, RadioPuts(d));
    PutAllHas(m, PlainPuts(d), CPU_NAME, DISKS);
    PutAllHas(half, RadioPuts(d), WIFI_SSID, BLOCK_SIZE);
    HasKept(half, r, PlainPuts(d), CPU_NAME, DISKS, WIFI_SSID, BLOCK_SIZE);
    assert r[DISKS..WIFI_SSID] == r[..WIFI_SSID][DISKS..] == half[..WIFI_SSID][DISKS..] == half[DISKS..][..WIFI_SSID - DISKS];
    assert m[DISKS..WIFI_SSID] == m[DISKS..][..WIFI_SSID - DISKS];
    assert r[..CPU_NAME] == r[..WIFI_SSID][..CPU_NAME] == half[..WIFI_SSID][..CPU_NAME] == half[..CPU_NAME];
  }

  lemma GroupsAreStored(m: seq<Byte>, d: Readings)
    requires HasAll(m, PlainPuts(d))
    ensures HasAll(m, CpuPuts(d)) && HasAll(m, MemoryPuts(d)) && HasAll(m, PowerPuts(d)) && HasAll(m, GpuPuts(d))
  {
    hide CpuPuts, MemoryPuts, PowerPuts, GpuPuts, Has;
    var ps := PlainPuts(d);
    assert forall p | p in CpuPuts(d) :: p in ps;
    assert forall p | p in MemoryPuts(d) :: p in ps;
    assert forall p | p in PowerPuts(d) :: p in ps;
    assert forall p | p in GpuPuts(d) :: p in ps;
  }

  lemma GroupsArePublished()
    ensures forall e | e in Cpu() :: e in Schema()
    ensures forall e | e in Memory() :: e in Schema()
    ensures forall e | e in Battery() + Power() :: e in Schema()
    ensures forall e | e in Os() + Gpu() :: e in Schema()
    ensures forall e | e in Wifi() + Bluetooth() :: e in Schema()
  {
    hide Cpu, Memory, Battery, Power, Os, Gpu, Wifi, Bluetooth, Middle;
  }

  /**
   After any finished handshake a client reads under each of these names what was delivered for it:
   texts cut to their room, numbers modulo their width, signed ones with their sign, floats bit by bit.
   */
  lemma ReadingsAreReadByName(f: map<seq<Byte>, FieldDef>, m: seq<Byte>, d: Readings)
    requires |m| == BLOCK_SIZE && AllTexts(d) && Told(f)
    ensures var r := WithReadings(m, d);
      ShowsCpu(f, r, d) && ShowsMemory(f, r, d) && ShowsPower(f, r, d) && ShowsGpu(f, r, d) && ShowsRadio(f, r, d)
  {
    hide Schema, Told, Serves, Cpu, Memory, Battery, Power, Os, Gpu, Wifi, Bluetooth, HasAll, WithReadings;
    hide CpuPuts, MemoryPuts, PowerPuts, GpuPuts, PlainPuts, RadioPuts;
    hide ShowsCpu, ShowsMemory, ShowsPower, ShowsGpu, ShowsRadio;
    var r := WithReadings(m, d);
    ReadingsAreStored(m, d);
    GroupsAreStored(r, d);
    GroupsArePublished();
    ServerServes(f, r);
    CpuIsRead(f, Schema(), r, d);
    MemoryIsRead(f, Schema(), r, d);
    PowerIsRead(f, Schema(), r, d);
    GpuIsRead(f, Schema(), r, d);
    RadioIsRead(f, Schema(), r, d);
  }

  lemma {:induction false} PutAllBeside(m: seq<Byte>, ps: seq<Put>, e: Entry)
    requires Fits(m, e) && forall i | 0 <= i < |ps| :: ps[i].at + |ps[i].bytes| <= |m|
    requires forall i | 0 <= i < |ps| :: ps[i].at + |ps[i].bytes| <= e.offset || e.offset + e.size <= ps[i].at
    ensures Held(PutAll(m, ps), e) == Held(m, e)
    decreases |ps|
  {
    hide Held, Written;
    if ps != [] {
      var n := |ps| - 1;
      PutAllBeside(m, ps[..n], e);
      HeldOther(PutAll(m, ps[..n]), ps[n].at, ps[n].bytes, e);
    }
  }

  function Brand(): Entry { Text("gpu/0/brand", GPU_BRAND, 32) }

  lemma BrandApart(d: Readings)
    ensures forall i | 0 <= i < |GpuPuts(d)| ::
      GpuPuts(d)[i].at + |GpuPuts(d)[i].bytes| <= GPU_BRAND || GPU_BRAND + 32 <= GpuPuts(d)[i].at
  {
    hide Number, TextPut, FlagPut;
  }

  lemma BehindTheBrand(d: Readings)
    ensures forall i | 0 <= i < |PlainPuts(d)| ::
      PlainPuts(d)[i].at + |PlainPuts(d)[i].bytes| <= GPU_BRAND || GPU_BRAND + 32 <= PlainPuts(d)[i].at
    ensures forall i | 0 <= i < |RadioPuts(d)| :: GPU_BRAND + 32 <= RadioPuts(d)[i].at
  {
    hide CpuPuts, MemoryPuts, PowerPuts, GpuPuts, RadioPuts;
    CpuMemoryAscending(d);
    PowerGpuAscending(d);
    RadioAscending(d);
    BrandApart(d);
  }

  /** One published name is never filled: the brand of the GPU reads as it did before. */
  lemma BrandIsNeverFilled(f: map<seq<Byte>, FieldDef>, m: seq<Byte>, d: Readings)
    requires |m| == BLOCK_SIZE && Told(f)
    ensures Under(f, WithReadings(m, d), "gpu/0/brand") == Under(f, m, "gpu/0/brand") != None
  {
    hide Schema, Told, Serves, Under, PlainPuts, RadioPuts, Ascending, Os, Gpu, Held, PutAll;
    PlainAscending(d);
    RadioAscending(d);
    AscendingFits(PlainPuts(d), CPU_NAME, DISKS);
    AscendingFits(RadioPuts(d), WIFI_SSID, BLOCK_SIZE);
    BehindTheBrand(d);
    PutAllBeside(m, PlainPuts(d), Brand());
    PutAllBeside(PutAll(m, PlainPuts(d)), RadioPuts(d), Brand());
    GroupsArePublished();
    BrandEntry(Schema());
    ServerServes(f, m);
    ServerServes(f, WithReadings(m, d));
    EntryIsRead(f, Schema(), m, Brand());
    EntryIsRead(f, Schema(), WithReadings(m, d), Brand());
  }

  lemma BrandEntry(all: seq<Entry>)
    requires forall e | e in Os() + Gpu() :: e in all
    ensures Brand() in all
  {
  }

  // ----- the code of the assignments --------------------------------------------

  /** The block holds what it held at `m` with these assignments made. */
  predicate Assigned(now: seq<Byte>, m: seq<Byte>, ps: seq<Put>) {
    (forall i | 0 <= i < |ps| :: ps[i].at + |ps[i].bytes| <= |m|) && now == PutAll(m, ps)
  }

  lemma AssignedMore(now: seq<Byte>, m: seq<Byte>, ps: seq<Put>, p: Put)
    requires Assigned(now, m, ps) && p.at + |p.bytes| <= |m|
    ensures Assigned(Written(now, p.at, p.bytes), m, ps + [p])
  {
    hide Written;
    assert (ps + [p])[..|ps|] == ps;
  }

  lemma TextIgnoresOld(was: seq<Byte>, text: seq<Byte>)
    requires was != []
    ensures TextBytes(was, text) == TextBytes(Zeros(|was|), text)
  {
  }

  /** The `k`-th of these assignments. */
  method AssignText(w: BlockWriter, ghost m: seq<Byte>, ghost ps: seq<Put>, ghost k: nat, at: nat, size: nat, text: seq<Byte>)
    requires k < |ps| && Assigned(w.memory[..], m, ps[..k])
    requires size > 0 && at + size <= |m| && ps[k] == TextPut(at, size, text)
    modifies w.memory
    ensures Assigned(w.memory[..], m, ps[..k + 1])
  {
    hide Written, TextBytes, Assigned;
    AssignedSize(w.memory[..], m, ps[..k]);
    TextIgnoresOld(w.memory[at..at + size], text);
    AssignedMore(w.memory[..], m, ps[..k], ps[k]);
    w.StoreText(at, size, text);
    assert ps[..k + 1] == ps[..k] + [ps[k]];
  }

  method AssignNumber(w: BlockWriter, ghost m: seq<Byte>, ghost ps: seq<Put>, ghost k: nat, at: nat, size: nat, v: int)
    requires k < |ps| && Assigned(w.memory[..], m, ps[..k])
    requires (size == 1 || size == 4 || size == 8) && at + size <= |m| && ps[k] == Number(at, size, v)
    modifies w.memory
    ensures Assigned(w.memory[..], m, ps[..k + 1])
  {
    hide Written, LowBytes, Assigned;
    AssignedSize(w.memory[..], m, ps[..k]);
    AssignedMore(w.memory[..], m, ps[..k], ps[k]);
    w.StoreNumber(at, size, v % Range(size));
    assert ps[..k + 1] == ps[..k] + [ps[k]];
  }

  method AssignFlag(w: BlockWriter, ghost m: seq<Byte>, ghost ps: seq<Put>, ghost k: nat, at: nat, flag: bool)
    requires k < |ps| && Assigned(w.memory[..], m, ps[..k])
    requires at < |m| && ps[k] == FlagPut(at, flag)
    modifies w.memory
    ensures Assigned(w.memory[..], m, ps[..k + 1])
  {
    AssignNumber(w, m, ps, k, at, 1, if flag then 1 else 0);
  }

  method AssignFloat(w: BlockWriter, ghost m: seq<Byte>, ghost ps: seq<Put>, ghost k: nat, at: nat, x: Float32)
    requires k < |ps| && Assigned(w.memory[..], m, ps[..k])
    requires at + 4 <= |m| && ps[k] == Put(at, x)
    modifies w.memory
    ensures Assigned(w.memory[..], m, ps[..k + 1])
  {
    hide Written, Assigned;
    AssignedSize(w.memory[..], m, ps[..k]);
    AssignedMore(w.memory[..], m, ps[..k], ps[k]);
    w.StoreBytes(at, x);
    assert ps[..k + 1] == ps[..k] + [ps[k]];
  }

  lemma AssignedSize(now: seq<Byte>, m: seq<Byte>, ps: seq<Put>)
    requires Assigned(now, m, ps)
    ensures |now| == |m|
  {
  }

  method WriteCpu(w: BlockWriter, d: Readings)
    requires w.memory.Length == BLOCK_SIZE
    modifies w.memory
    ensures Assigned(w.memory[..], old(w.memory[..]), CpuPuts(d))
  {
    hide Assigned, TextPut, Number, FlagPut;
    ghost var m := w.memory[..];
    ghost var ps := CpuPuts(d);
    NoneAssigned(m, ps);
    AssignText(w, m, ps, 0, CPU_NAME, 64, d.cpuName);
    AssignNumber(w, m, ps, 1, PHYSICAL_CORES, 1, d.physicalCores);
    AssignNumber(w, m, ps, 2, LOGICAL_CORES, 1, d.physicalCores);
    AssignNumber(w, m, ps, 3, PERFORMANCE_CORES, 1, d.performanceCores);
    AssignNumber(w, m, ps, 4, EFFICIENCY_CORES, 1, d.efficiencyCores);
    AssignFloat(w, m, ps, 5, CPU_USAGE, d.cpuUsage);
    AssignFloat(w, m, ps, 6, P_CORE_FREQ, d.pCoreFreq);
    AssignFloat(w, m, ps, 7, E_CORE_FREQ, d.eCoreFreq);
    AssignFloat(w, m, ps, 8, CPU_TEMP, d.cpuTemp);
    AssignFlag(w, m, ps, 9, HYPER_THREADING, false);
    AssignFlag(w, m, ps, 10, VIRTUALIZATION, false);
    AssignFloat(w, m, ps, 11, CPU_SAMPLE_INTERVAL_MS, FIVE_HUNDRED);
    assert ps[..12] == ps;
  }

  method WriteMemory(w: BlockWriter, d: Readings)
    requires w.memory.Length == BLOCK_SIZE
    modifies w.memory
    ensures Assigned(w.memory[..], old(w.memory[..]), MemoryPuts(d))
  {
    hide Assigned, TextPut, Number, FlagPut;
    ghost var m := w.memory[..];
    ghost var ps := MemoryPuts(d);
    NoneAssigned(m, ps);
    AssignNumber(w, m, ps, 0, TOTAL_MEMORY, 8, d.totalMemory);
    AssignNumber(w, m, ps, 1, USED_MEMORY, 8, d.usedMemory);
    AssignNumber(w, m, ps, 2, AVAILABLE_MEMORY, 8, d.availableMemory);
    AssignNumber(w, m, ps, 3, COMPRESSED_MEMORY, 8, d.compressedMemory);
    AssignNumber(w, m, ps, 4, SWAP_USED, 8, d.swapUsed);
    AssignNumber(w, m, ps, 5, SWAP_TOTAL, 8, d.swapTotal);
    AssignNumber(w, m, ps, 6, RAM_SPEED, 4, d.ramSpeed);
    AssignText(w, m, ps, 7, RAM_TYPE, 32, d.ramType);
    assert ps[..8] == ps;
  }

  method WritePower(w: BlockWriter, d: Readings)
    requires w.memory.Length == BLOCK_SIZE
    modifies w.memory
    ensures Assigned(w.memory[..], old(w.memory[..]), PowerPuts(d))
  {
    hide Assigned, TextPut, Number, FlagPut;
    ghost var m := w.memory[..];
    ghost var ps := PowerPuts(d);
    NoneAssigned(m, ps);
    AssignNumber(w, m, ps, 0, BATTERY_PERCENT, 4, d.batteryPercent);
    AssignFlag(w, m, ps, 1, AC_ONLINE, d.acOnline);
    AssignFloat(w, m, ps, 2, CPU_POWER, d.cpuPower);
    AssignFloat(w, m, ps, 3, GPU_POWER, d.gpuPower);
    AssignFloat(w, m, ps, 4, ANE_POWER, d.anePower);
    assert ps[..5] == ps;
  }

  method WriteGpu(w: BlockWriter, d: Readings)
    requires w.memory.Length == BLOCK_SIZE
    modifies w.memory
    ensures Assigned(w.memory[..], old(w.memory[..]), GpuPuts(d))
  {
    hide Assigned, TextPut, Number, FlagPut;
    ghost var m := w.memory[..];
    ghost var ps := GpuPuts(d);
    NoneAssigned(m, ps);
    AssignText(w, m, ps, 0, OS_VERSION, 128, d.osVersion);
    AssignText(w, m, ps, 1, HARDWARE_MODEL, 128, d.hardwareModel);
    AssignText(w, m, ps, 2, GPU_NAME, 48, d.gpuName);
    AssignNumber(w, m, ps, 3, GPU_MEMORY, 8, d.gpuMemory);
    AssignFloat(w, m, ps, 4, GPU_MEMORY_PERCENT, d.gpuMemoryPercent);
    AssignFloat(w, m, ps, 5, GPU_USAGE, d.gpuUsage);
    AssignFloat(w, m, ps, 6, GPU_TEMP, d.gpuTemp);
    AssignFloat(w, m, ps, 7, GPU_FREQ, d.gpuFreq);
    AssignFlag(w, m, ps, 8, GPU_IS_VIRTUAL, false);
    assert ps[..9] == ps;
  }

  method WriteRadio(w: BlockWriter, d: Readings)
    requires w.memory.Length == BLOCK_SIZE
    modifies w.memory
    ensures Assigned(w.memory[..], old(w.memory[..]), RadioPuts(d))
  {
    hide Assigned, TextPut, Number, FlagPut;
    ghost var m := w.memory[..];
    ghost var ps := RadioPuts(d);
    NoneAssigned(m, ps);
    AssignText(w, m, ps, 0, WIFI_SSID, 32, d.ssid);
    AssignNumber(w, m, ps, 1, WIFI_RSSI, 4, d.rssi);
    AssignNumber(w, m, ps, 2, WIFI_CHANNEL, 4, d.channel);
    AssignText(w, m, ps, 3, WIFI_SECURITY, 16, d.security);
    AssignFlag(w, m, ps, 4, WIFI_POWER_ON, d.wifiPowerOn);
    AssignFlag(w, m, ps, 5, WIFI_IS_CONNECTED, d.isConnected);
    AssignFlag(w, m, ps, 6, BLUETOOTH_POWER_ON, d.bluetoothPowerOn);
    AssignNumber(w, m, ps, 7, BLUETOOTH_DEVICE_COUNT, 4, d.deviceCount);
    AssignText(w, m, ps, 8, BLUETOOTH_NAME, 64, d.bluetoothName);
    assert ps[..9] == ps;
  }

  lemma NoneAssigned(m: seq<Byte>, ps: seq<Put>)
    ensures Assigned(m, m, ps[..0])
  {
  }

  /** The assignments of one pass, in the order the server makes them; what it does in between is not theirs. */
  method WriteReadings(w: BlockWriter, d: Readings)
    requires w.memory.Length == BLOCK_SIZE
    modifies w.memory
    ensures w.memory[..] == WithReadings(old(w.memory[..]), d)
  {
    hide CpuPuts, MemoryPuts, PowerPuts, GpuPuts, RadioPuts, PutAll;
    ghost var m := w.memory[..];
    WriteCpu(w, d);
    WriteMemory(w, d);
    PutAllConcat(m, CpuPuts(d), MemoryPuts(d));
    WritePower(w, d);
    PutAllConcat(m, CpuPuts(d) + MemoryPuts(d), PowerPuts(d));
    WriteGpu(w, d);
    PutAllConcat(m, CpuPuts(d) + MemoryPuts(d) + PowerPuts(d), GpuPuts(d));
    WriteRadio(w, d);
  }
}
