/** The values the status reporter works on: command-line occurrence counts,
    the records returned by the operating-system readers, the optional
    per-metric results that `main` keeps in its locals, and the float
    renderers that stand for Rust's `{:.1}` and `{:.2}` formatting. */
module Types {

  /** Rust's `u64`: subtraction below zero and addition past the top are
      panics in the source, so every use states them as preconditions. */
  const U64_LIMIT: int := 0x1_0000_0000_0000_0000
  newtype U64 = x: int | 0 <= x < U64_LIMIT

  datatype Option<+T> = None | Some(value: T)

  /** How often each short flag occurred on the command line
      (`-p`, `-a`, `-m`, `-w`, `-i`, `-k`), as clap's `occurrences_of` reports it. */
  datatype Occurrences = Occurrences(pcpu: nat, acpu: nat, vmem: nat, smem: nat, io: nat, net: nat)

  /** The fields of psutil's `VirtualMemory` that the report uses (bytes). */
  datatype VirtualMemory = VirtualMemory(total: U64, used: U64, shared: U64)

  /** The fields of psutil's `SwapMemory` that the report uses (bytes). */
  datatype SwapMemory = SwapMemory(total: U64, used: U64)

  /** One disk's cumulative byte counters. */
  datatype DiskCounters = DiskCounters(readBytes: U64, writeBytes: U64)

  /** A per-disk counter snapshot, keyed by device name. */
  type DiskSnapshot = map<string, DiskCounters>

  /** The host-wide network byte counters. */
  datatype NetCounters = NetCounters(bytesSend: U64, bytesRecv: U64)

  /** What every operating-system read returns; a failed read (`Err`) is `None`.
      The disk and network reads are taken twice, a second apart. */
  datatype OsReads = OsReads(
    perCpu: Option<seq<real>>,
    avgCpu: Option<real>,
    memory: Option<VirtualMemory>,
    swap: Option<SwapMemory>,
    diskPast: Option<DiskSnapshot>,
    diskCurrent: Option<DiskSnapshot>,
    netPast: Option<NetCounters>,
    netCurrent: Option<NetCounters>)

  /** The eight optional locals of `main` after sampling. */
  datatype Samples = Samples(
    perCpu: Option<seq<real>>,
    avgCpu: Option<real>,
    memory: Option<VirtualMemory>,
    swap: Option<SwapMemory>,
    ioUl: Option<U64>,
    ioDl: Option<U64>,
    netUl: Option<real>,
    netDl: Option<real>)

  /** Nothing sampled yet: every local starts as `None`. */
  const NoSamples: Samples := Samples(None, None, None, None, None, None, None, None)

  /** Float formatting, left uninterpreted: `oneDecimal` is `{:.1}`,
      `twoDecimals` is `{:.2}` applied to an `f64`. */
  datatype Renderer = Renderer(oneDecimal: real -> string, twoDecimals: real -> string)
}
