/** The `main` function of the reporter, step by step: it tests each flag in
    turn, appends the tag to `components` and stores the read in its local;
    for the rate metrics it takes two snapshots around a one-second sleep.
    It then walks `components` and appends each present segment to `output`.
    The operating-system reads arrive as the `OsReads` parameter; the sleeps
    are counted in an out-parameter. */
module Cli {
  import opened Types
  import opened Selection
  import opened Rates
  import opened Report
  import Decimal

  /** The disk and network deltas of selected metrics do not panic. */
  predicate RatesDefined(flags: Occurrences, os: OsReads) {
    && ((flags.io == 1 && os.diskPast.Some? && os.diskCurrent.Some?)
        ==> DiskDeltaDefined(os.diskPast.value, os.diskCurrent.value))
    && ((flags.net == 1 && os.netPast.Some? && os.netCurrent.Some?)
        ==> NetDeltaDefined(os.netPast.value, os.netCurrent.value))
  }

  /** `shared + used` of the memory record fits in a `u64`. */
  predicate MemoryFits(m: VirtualMemory) {
    m.shared as int + m.used as int < U64_LIMIT
  }

  /** The locals of `main` once every flag has been tested: a metric holds its
      read when its flag was given once, and `None` otherwise. */
  function Sampled(flags: Occurrences, os: OsReads): (r: Samples)
    requires RatesDefined(flags, os)
    ensures flags.pcpu != 1 ==> r.perCpu.None?
    ensures flags.acpu != 1 ==> r.avgCpu.None?
    ensures flags.vmem != 1 ==> r.memory.None?
    ensures flags.smem != 1 ==> r.swap.None?
    ensures r.ioUl.Some? == r.ioDl.Some? == (flags.io == 1 && os.diskPast.Some? && os.diskCurrent.Some?)
    ensures r.netUl.Some? == r.netDl.Some? == (flags.net == 1 && os.netPast.Some? && os.netCurrent.Some?)
  {
    var disk := if flags.io == 1 then DiskRates(os.diskPast, os.diskCurrent) else None;
    var net := if flags.net == 1 then NetRates(os.netPast, os.netCurrent) else None;
    Samples(
      perCpu := if flags.pcpu == 1 then os.perCpu else None,
      avgCpu := if flags.acpu == 1 then os.avgCpu else None,
      memory := if flags.vmem == 1 then os.memory else None,
      swap := if flags.smem == 1 then os.swap else None,
      ioUl := if disk.Some? then Some(disk.value.0) else None,
      ioDl := if disk.Some? then Some(disk.value.1) else None,
      netUl := if net.Some? then Some(net.value.0) else None,
      netDl := if net.Some? then Some(net.value.1) else None)
  }

  /** The number of rate metrics (disk `i`, network `k`) in `components`. */
  function RateTags(cs: string): nat {
    multiset(cs)['i'] + multiset(cs)['k']
  }

  /** One sleep per selected rate metric. */
  lemma RateTagsSelected(flags: Occurrences)
    ensures RateTags(Selected(flags)) == (if flags.io == 1 then 1 else 0) + (if flags.net == 1 then 1 else 0)
  {
    SelectedCount(flags, 'i');
    SelectedCount(flags, 'k');
  }

  /** Whether the read (or, for a rate, both snapshots) behind tag `c` succeeded. */
  predicate ReadOk(c: char, os: OsReads) {
    match c
    case 'p' => os.perCpu.Some?
    case 'a' => os.avgCpu.Some?
    case 'm' => os.memory.Some?
    case 'w' => os.swap.Some?
    case 'i' => os.diskPast.Some? && os.diskCurrent.Some?
    case 'k' => os.netPast.Some? && os.netCurrent.Some?
    case _ => false
  }

  /** `os'` is `os` with the read behind tag `c` failed: for a rate metric at
      least one of its two snapshots, and every other read as it was. */
  predicate FailedOnly(os: OsReads, os': OsReads, c: char) {
    && !ReadOk(c, os')
    && (c != 'p' ==> os'.perCpu == os.perCpu)
    && (c != 'a' ==> os'.avgCpu == os.avgCpu)
    && (c != 'm' ==> os'.memory == os.memory)
    && (c != 'w' ==> os'.swap == os.swap)
    && (c != 'i' ==> os'.diskPast == os.diskPast && os'.diskCurrent == os.diskCurrent)
    && (c != 'k' ==> os'.netPast == os.netPast && os'.netCurrent == os.netCurrent)
  }

  /** `output_per_cpu`: the per-core figures, each followed by "% ". The
      source unwraps its argument, so it must hold a list. */
  method OutputPerCpu(perCpu: Option<seq<real>>, fmt: Renderer) returns (result: string)
    requires perCpu.Some?
    ensures result == PerCpuText(perCpu.value, fmt)
  {
    var cores := perCpu.value;
    result := "";
    for i := 0 to |cores|
      invariant result == PerCpuText(cores[..i], fmt)
    {
      assert cores[..i + 1][..i] == cores[..i];
      result := result + fmt.oneDecimal(cores[i]);
      result := result + "% ";
    }
    assert cores[..|cores|] == cores;
  }

  /** The disk block of `main` after its two snapshots: both rates are
      `None` when either read failed, and both are the "sda" delta otherwise. */
  method SampleDisk(past: Option<DiskSnapshot>, current: Option<DiskSnapshot>)
    returns (ioUl: Option<U64>, ioDl: Option<U64>)
    requires past.Some? && current.Some? ==> DiskDeltaDefined(past.value, current.value)
    ensures ioUl.Some? == ioDl.Some? == (past.Some? && current.Some?)
    ensures ioUl.Some? ==> DiskRates(past, current) == Some((ioUl.value, ioDl.value))
  {
    if past.None? || current.None? {
      ioUl := None;
      ioDl := None;
    } else {
      var start := past.value;
      var finish := current.value;
      ioUl := Some((finish[Device].readBytes - start[Device].readBytes) / 1024);
      ioDl := Some((finish[Device].writeBytes - start[Device].writeBytes) / 1024);
    }
  }

  /** The network block of `main` after its two snapshots. */
  method SampleNet(past: Option<NetCounters>, current: Option<NetCounters>)
    returns (netUl: Option<real>, netDl: Option<real>)
    requires past.Some? && current.Some? ==> NetDeltaDefined(past.value, current.value)
    ensures netUl.Some? == netDl.Some? == (past.Some? && current.Some?)
    ensures netUl.Some? ==> NetRates(past, current) == Some((netUl.value, netDl.value))
  {
    if past.None? || current.None? {
      netUl := None;
      netDl := None;
    } else {
      var start := past.value;
      var finish := current.value;
      netUl := Some((finish.bytesSend - start.bytesSend) as int as real / 1024.0);
      netDl := Some((finish.bytesRecv - start.bytesRecv) as int as real / 1024.0);
    }
  }

  /** The four flag tests of `main` for the instantaneous metrics: each
      given once appends its tag and keeps its read. */
  method SampleInstant(flags: Occurrences, os: OsReads)
    returns (components: string, perCpu: Option<seq<real>>, avgCpu: Option<real>,
             memory: Option<VirtualMemory>, swap: Option<SwapMemory>)
    ensures components == Opt(flags, 'p') + Opt(flags, 'a') + Opt(flags, 'm') + Opt(flags, 'w')
    ensures perCpu == (if flags.pcpu == 1 then os.perCpu else None)
    ensures avgCpu == (if flags.acpu == 1 then os.avgCpu else None)
    ensures memory == (if flags.vmem == 1 then os.memory else None)
    ensures swap == (if flags.smem == 1 then os.swap else None)
  {
    components := "";
    perCpu, avgCpu, memory, swap := None, None, None, None;
    if flags.pcpu == 1 {
      components := components + "p";
      perCpu := os.perCpu;
    }
    if flags.acpu == 1 {
      components := components + "a";
      avgCpu := os.avgCpu;
    }
    if flags.vmem == 1 {
      components := components + "m";
      memory := os.memory;
    }
    if flags.smem == 1 {
      components := components + "w";
      swap := os.swap;
    }
  }

  /** The two flag tests of `main` for the rate metrics: each given once
      appends its tag, takes a snapshot, sleeps, takes another and keeps the
      delta. */
  method SampleRates(flags: Occurrences, os: OsReads, prefix: string)
    returns (components: string, ioUl: Option<U64>, ioDl: Option<U64>,
             netUl: Option<real>, netDl: Option<real>, sleeps: nat)
    requires RatesDefined(flags, os)
    ensures components == prefix + Opt(flags, 'i') + Opt(flags, 'k')
    ensures sleeps == (if flags.io == 1 then 1 else 0) + (if flags.net == 1 then 1 else 0)
    ensures var disk := if flags.io == 1 then DiskRates(os.diskPast, os.diskCurrent) else None;
            ioUl == (if disk.Some? then Some(disk.value.0) else None)
            && ioDl == (if disk.Some? then Some(disk.value.1) else None)
    ensures var net := if flags.net == 1 then NetRates(os.netPast, os.netCurrent) else None;
            netUl == (if net.Some? then Some(net.value.0) else None)
            && netDl == (if net.Some? then Some(net.value.1) else None)
  {
    components := prefix;
    sleeps := 0;
    ioUl, ioDl, netUl, netDl := None, None, None, None;
    if flags.io == 1 {
      components := components + "i";
      var past := os.diskPast;
      sleeps := sleeps + 1;
      var current := os.diskCurrent;
      ioUl, ioDl := SampleDisk(past, current);
    }
    if flags.net == 1 {
      components := components + "k";
      var past := os.netPast;
      sleeps := sleeps + 1;
      var current := os.netCurrent;
      netUl, netDl := SampleNet(past, current);
    }
  }

  /** The flag tests of `main`: the tags appended to `components`, the locals
      they fill, and the number of one-second sleeps taken (one per rate
      metric, not one in all). */
  method Sample(flags: Occurrences, os: OsReads) returns (components: string, samples: Samples, sleeps: nat)
    requires RatesDefined(flags, os)
    ensures components == Selected(flags)
    ensures samples == Sampled(flags, os)
    ensures sleeps == RateTags(components)
  {
    var instant, perCpu, avgCpu, memory, swap := SampleInstant(flags, os);
    var ioUl, ioDl, netUl, netDl;
    components, ioUl, ioDl, netUl, netDl, sleeps := SampleRates(flags, os, instant);
    SelectedUnfold(flags);
    RateTagsSelected(flags);
    samples := Samples(perCpu, avgCpu, memory, swap, ioUl, ioDl, netUl, netDl);
  }

  /** The `p` branch of the output loop. */
  method AppendPerCpu(output: string, perCpu: Option<seq<real>>, fmt: Renderer) returns (result: string)
    requires perCpu.Some?
    ensures result == output + PerCpuSegment(perCpu.value, fmt)
  {
    var text := OutputPerCpu(perCpu, fmt);
    result := output + text;
    result := result + Separator;
  }

  /** The `a` branch of the output loop. */
  method AppendAvgCpu(output: string, avg: real, fmt: Renderer) returns (result: string)
    ensures result == output + AvgCpuSegment(avg, fmt)
  {
    result := output + "avgCPU:";
    result := result + Separator;
    result := result + fmt.twoDecimals(avg);
    result := result + "%";
    result := result + Separator;
  }

  /** The `m` branch of the output loop; `shared + used` is a `u64` sum. */
  method AppendMemory(output: string, mem: VirtualMemory, fmt: Renderer) returns (result: string)
    requires MemoryFits(mem)
    ensures result == output + MemorySegment(mem, fmt)
  {
    result := output + "MEM:";
    result := result + Separator;
    var sum := mem.shared + mem.used;
    result := result + fmt.twoDecimals(sum as int as real / GiB as real);
    result := result + "/";
    result := result + fmt.twoDecimals(mem.total as int as real / GiB as real);
    result := result + Separator;
    result := result + "GB";
    result := result + Separator;
  }

  /** The `w` branch of the output loop. */
  method AppendSwap(output: string, mem: SwapMemory, fmt: Renderer) returns (result: string)
    ensures result == output + SwapSegment(mem, fmt)
  {
    result := output + "Swap:";
    result := result + Separator;
    result := result + fmt.twoDecimals(mem.used as int as real / GiB as real);
    result := result + "/";
    result := result + fmt.twoDecimals(mem.total as int as real / GiB as real);
    result := result + Separator;
    result := result + "GB";
    result := result + Separator;
  }

  /** The `k` branch of the output loop. */
  method AppendNet(output: string, ul: real, dl: real, fmt: Renderer) returns (result: string)
    ensures result == output + NetSegment(ul, dl, fmt)
  {
    result := output + "NET:";
    result := result + Separator;
    result := result + fmt.twoDecimals(ul);
    result := result + Separator;
    result := result + fmt.twoDecimals(dl);
    result := result + Separator;
    result := result + "kB/s";
    result := result + Separator;
  }

  /** The `i` branch of the output loop; the `u64`s print as plain integers. */
  method AppendIo(output: string, ul: U64, dl: U64) returns (result: string)
    ensures result == output + IoSegment(ul, dl)
  {
    result := output + "IO:";
    result := result + Separator;
    result := result + Decimal.ToDecimal(ul as nat);
    result := result + Separator;
    result := result + Decimal.ToDecimal(dl as nat);
    result := result + Separator;
    result := result + "kB/s";
    result := result + Separator;
  }

  /** One pass of the output loop of `main`: the tests for the six tags, of
      which at most one matches `ch`, append that tag's segment if present. */
  method AppendSegment(output: string, ch: char, samples: Samples, fmt: Renderer) returns (result: string)
    requires ch == 'm' && samples.memory.Some? ==> MemoryFits(samples.memory.value)
    ensures result == output + Segment(ch, samples, fmt)
  {
    result := output;
    if ch == 'p' && samples.perCpu.Some? {
      result := AppendPerCpu(result, samples.perCpu, fmt);
    }
    if ch == 'a' && samples.avgCpu.Some? {
      result := AppendAvgCpu(result, samples.avgCpu.value, fmt);
    }
    if ch == 'm' {
      var mem := samples.memory;
      if mem.Some? {
        result := AppendMemory(result, mem.value, fmt);
      }
    }
    if ch == 'w' {
      var mem := samples.swap;
      if mem.Some? {
        result := AppendSwap(result, mem.value, fmt);
      }
    }
    if ch == 'k' && samples.netUl.Some? && samples.netDl.Some? {
      result := AppendNet(result, samples.netUl.value, samples.netDl.value, fmt);
    }
    if ch == 'i' && samples.ioUl.Some? && samples.ioDl.Some? {
      result := AppendIo(result, samples.ioUl.value, samples.ioDl.value);
    }
    assert !Present(ch, samples) ==> result == output;
  }

  /** The output loop of `main`: one separator, then each tag's segment. */
  method Assemble(components: string, samples: Samples, fmt: Renderer) returns (output: string)
    requires 'm' in components && samples.memory.Some? ==> MemoryFits(samples.memory.value)
    ensures output == Output(components, samples, fmt)
  {
    output := "";
    output := output + Separator;
    for i := 0 to |components|
      invariant output == Output(components[..i], samples, fmt)
    {
      OutputStep(components, i, samples, fmt);
      output := AppendSegment(output, components[i], samples, fmt);
    }
    assert components[..|components|] == components;
  }

  lemma OutputStep(cs: string, i: nat, s: Samples, fmt: Renderer)
    requires i < |cs|
    ensures Output(cs[..i + 1], s, fmt) == Output(cs[..i], s, fmt) + Segment(cs[i], s, fmt)
  {
    assert cs[..i + 1][..i] == cs[..i];
  }

  /** The whole of `main` up to `println!`: the printed line and the sleeps. */
  method Run(flags: Occurrences, os: OsReads, fmt: Renderer) returns (output: string, sleeps: nat)
    requires RatesDefined(flags, os)
    requires flags.vmem == 1 && os.memory.Some? ==> MemoryFits(os.memory.value)
    ensures output == Output(Selected(flags), Sampled(flags, os), fmt)
    ensures sleeps == RateTags(Selected(flags))
  {
    var components, samples;
    components, samples, sleeps := Sample(flags, os);
    SelectedIff(flags, 'm');
    output := Assemble(components, samples, fmt);
  }
}
