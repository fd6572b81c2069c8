/** The counter deltas behind the two rate metrics. Both are taken over two
    snapshots one second apart; the byte delta is converted to kB by a
    division by 1024. Disk uses the counters of the device "sda" and integer
    (`u64`) division; network uses the host-wide counters and float division. */
module Rates {
  import opened Types

  /** The one disk the report looks at. */
  const Device: string := "sda"

  /** What indexing both snapshots with "sda" and subtracting `u64`s needs in
      order not to panic: the key is in both and neither counter went down. */
  predicate DiskDeltaDefined(start: DiskSnapshot, finish: DiskSnapshot) {
    Device in start && Device in finish
    && start[Device].readBytes <= finish[Device].readBytes
    && start[Device].writeBytes <= finish[Device].writeBytes
  }

  /** `k` is the number of whole kilobytes (1024 bytes) in `bytes`. */
  predicate WholeKilobytes(k: int, bytes: int) {
    k * 1024 <= bytes < (k + 1) * 1024
  }

  /** The disk rates (`io_ul`, `io_dl`) from two "sda" snapshots: the whole
      kilobytes read and written between them. */
  function DiskDelta(start: DiskSnapshot, finish: DiskSnapshot): (r: (U64, U64))
    requires DiskDeltaDefined(start, finish)
    ensures WholeKilobytes(r.0 as int, finish[Device].readBytes as int - start[Device].readBytes as int)
    ensures WholeKilobytes(r.1 as int, finish[Device].writeBytes as int - start[Device].writeBytes as int)
  {
    ((finish[Device].readBytes - start[Device].readBytes) / 1024,
     (finish[Device].writeBytes - start[Device].writeBytes) / 1024)
  }

  /** What subtracting the `u64` network counters needs in order not to panic. */
  predicate NetDeltaDefined(start: NetCounters, finish: NetCounters) {
    start.bytesSend <= finish.bytesSend && start.bytesRecv <= finish.bytesRecv
  }

  /** The network rates (`net_ul`, `net_dl`) in kB: bytes sent and received
      between the snapshots, over 1024. Float rounding is not modelled. */
  function NetDelta(start: NetCounters, finish: NetCounters): (r: (real, real))
    requires NetDeltaDefined(start, finish)
    ensures r.0 >= 0.0 && r.1 >= 0.0
    ensures r.0 * 1024.0 == (finish.bytesSend - start.bytesSend) as int as real
    ensures r.1 * 1024.0 == (finish.bytesRecv - start.bytesRecv) as int as real
  {
    ((finish.bytesSend - start.bytesSend) as int as real / 1024.0,
     (finish.bytesRecv - start.bytesRecv) as int as real / 1024.0)
  }

  /** The disk rates of one run: none when either snapshot read failed,
      the "sda" delta otherwise. */
  function DiskRates(past: Option<DiskSnapshot>, current: Option<DiskSnapshot>): (r: Option<(U64, U64)>)
    requires past.Some? && current.Some? ==> DiskDeltaDefined(past.value, current.value)
    ensures r.Some? <==> past.Some? && current.Some?
  {
    if past.None? || current.None? then None else Some(DiskDelta(past.value, current.value))
  }

  /** The network rates of one run: none when either snapshot read failed,
      the delta otherwise. */
  function NetRates(past: Option<NetCounters>, current: Option<NetCounters>): (r: Option<(real, real)>)
    requires past.Some? && current.Some? ==> NetDeltaDefined(past.value, current.value)
    ensures r.Some? <==> past.Some? && current.Some?
  {
    if past.None? || current.None? then None else Some(NetDelta(past.value, current.value))
  }

  /** The disk rate cannot exceed the later counter's whole kilobytes, and a
      counter that did not move gives a rate of zero. */
  lemma DiskDeltaBounds(start: DiskSnapshot, finish: DiskSnapshot)
    requires DiskDeltaDefined(start, finish)
    ensures DiskDelta(start, finish).0 as int <= finish[Device].readBytes as int / 1024
    ensures DiskDelta(start, finish).1 as int <= finish[Device].writeBytes as int / 1024
    ensures start[Device] == finish[Device] ==> DiskDelta(start, finish) == (0, 0)
  {
  }

  /** One kilobyte read and one written: the rates are (1, 1). */
  lemma DiskDeltaExample()
    ensures DiskDelta(map[Device := DiskCounters(1000, 500)],
                      map[Device := DiskCounters(2024, 1524)]) == (1, 1)
  {
  }
}
