/** Domain value objects of the memory monitor: the memory reading of the
    whole machine (with its GB-to-MB conversions), the system information
    wrapper, and the records that the use cases read (a process with its
    resident memory, and a snapshot of the system's utilisation). */
module Entities {

  datatype Option<T> = None | Some(value: T)

  /** Megabytes in one gigabyte, as the conversions use it. */
  const MbPerGb: real := 1024.0

  /** Immutable memory reading of the machine, in gigabytes (frozen dataclass). */
  datatype MemoryInfo = MemoryInfo(
    totalGb: real,
    availableGb: real,
    usedGb: real,
    freeGb: real,
    percent: real)

  /** System information: a wrapper holding one memory reading. */
  datatype SystemInfo = SystemInfo(memory: MemoryInfo)

  /** Resident memory of one process; the reading may be absent. */
  datatype ProcessMemory = ProcessMemory(rssBytes: Option<nat>)

  /** One process of a snapshot, with the fields the use cases read. */
  datatype Process = Process(pid: nat, name: string, memory: ProcessMemory)

  /** A utilisation snapshot with the fields the health scoring reads;
      `isHealthy` is the snapshot's own verdict and is taken as given. */
  datatype SystemMetrics = SystemMetrics(
    cpuPercent: real,
    memoryPercent: real,
    diskPercent: real,
    isHealthy: bool)

  /** Converts a quantity in GB into MB; dividing back gives the input, and
      a non-negative quantity never shrinks. */
  function GbToMb(gb: real): (mb: real)
    ensures mb / MbPerGb == gb
    ensures 0.0 <= gb ==> gb <= mb
    ensures gb < 0.0 ==> mb < gb
  {
    gb * MbPerGb
  }

  function TotalMb(m: MemoryInfo): (mb: real)
    ensures mb / MbPerGb == m.totalGb
    ensures 0.0 <= m.totalGb ==> m.totalGb <= mb
  {
    GbToMb(m.totalGb)
  }

  function AvailableMb(m: MemoryInfo): (mb: real)
    ensures mb / MbPerGb == m.availableGb
    ensures 0.0 <= m.availableGb ==> m.availableGb <= mb
  {
    GbToMb(m.availableGb)
  }

  function UsedMb(m: MemoryInfo): (mb: real)
    ensures mb / MbPerGb == m.usedGb
    ensures 0.0 <= m.usedGb ==> m.usedGb <= mb
  {
    GbToMb(m.usedGb)
  }

  function FreeMb(m: MemoryInfo): (mb: real)
    ensures mb / MbPerGb == m.freeGb
    ensures 0.0 <= m.freeGb ==> m.freeGb <= mb
  {
    GbToMb(m.freeGb)
  }

  /** The conversion is linear: MB figures of a sum or of a larger
      reading relate as the GB figures do. */
  lemma GbToMbLinear(a: real, b: real)
    ensures GbToMb(a + b) == GbToMb(a) + GbToMb(b)
    ensures a <= b <==> GbToMb(a) <= GbToMb(b)
  {
  }

  /** The reading used by the unit tests: 16 GB total and 8 GB for the
      other three figures. */
  lemma SixteenGigabyteReading()
    ensures var m := MemoryInfo(16.0, 8.0, 8.0, 8.0, 50.0);
      TotalMb(m) == 16384.0 && AvailableMb(m) == 8192.0
      && UsedMb(m) == 8192.0 && FreeMb(m) == 8192.0
  {
  }

  /** A system information value holds exactly the reading it was built
      with, and two of them are equal exactly when their readings are. */
  lemma SystemInfoHoldsMemory(m: MemoryInfo, n: MemoryInfo)
    ensures SystemInfo(m).memory == m
    ensures SystemInfo(m) == SystemInfo(n) <==> m == n
  {
  }

  /** The sort key of the memory order: the resident size, with an absent
      reading counted as zero. */
  function RssOrZero(p: Process): nat
  {
    match p.memory.rssBytes
    case Some(b) => b
    case None => 0
  }
}
