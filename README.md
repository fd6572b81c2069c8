# rust-psutil status line, modelled in Dafny

`rust-psutil` is a one-shot command-line reporter. It takes the flags `-p`
(CPU % per core), `-a` (average CPU %), `-m` (virtual memory), `-w` (swap),
`-i` (disk I/O of "sda") and `-k` (network I/O). For each flag given exactly
once it reads that metric from the operating system, then prints one line.

This project models `src/main.rs` in three parts:

- **Selection.** `main` tests each flag with `occurrences_of(..) == 1`. A match appends one tag character to `components`, always in the order `p, a, m, w, i, k`, and stores the read in an `Option` local.
- **Rates.** The disk and network blocks each take a counter snapshot, sleep one second and take another. A failed read makes both rates `None`. Otherwise the disk rates are the "sda" byte deltas divided by 1024 in `u64` arithmetic. The network rates are the host-wide deltas over 1024 as floats.
- **Report assembly.** The output starts with one `" "`. The loop over `components` appends a labelled segment ending in `" "` for every tag whose result is present, and nothing for an absent one. `output_per_cpu` renders each core as `{:.1}` followed by `"% "`.

Dafny layout:

- `types.dfy` (module `Types`): `U64` as a newtype over `0 .. 2^64`, `Option`, the occurrence counts, psutil's records, the reads, the eight locals (`Samples`), and the float renderer.
- `selection.dfy` (`Selection`): the selection as a filter over the canonical order, plus its lemmas.
- `rates.dfy` (`Rates`): the disk and network deltas.
- `decimal.dfy` (`Decimal`): Rust's `Display` for unsigned integers.
- `report.dfy` (`Report`): the specification of the printed line (`Segment`, `Segments`, `Output`) and its lemmas.
- `cli.dfy` (`Cli`): the imperative `main`. The methods `SampleInstant`, `SampleRates`, `SampleDisk`, `SampleNet`, `Sample`, `OutputPerCpu`, the `Append*` branches, `AppendSegment`, `Assemble` and `Run` are each proved against the specification functions.
- `properties.dfy` (`Properties`): end-to-end properties of one run, plus worked examples.

Operating-system reads are the parameter `os: OsReads`; a failed read is `None`. Float formatting is the parameter `fmt: Renderer`, two arbitrary functions `real -> string` standing for `{:.1}` and `{:.2}`. Every property therefore holds for every rendering. The one-second sleeps are counted in the out-parameter `sleeps` of `Sample` and `Run`.

In four places the code behaves differently from what a reader might expect, and the model follows the code:

- A missing "sda" key, or a disk or network counter that went down, does not make the metric unavailable the way a failed read does. The code panics on the map index, or on the `u64` subtraction in a debug build. The model states these cases as the precondition `RatesDefined`.
- The code sleeps once per rate metric (lines 96 and 117), not once for the whole run. `Cli.Sample` ensures `sleeps == RateTags(components)`, and `Properties.BothRatesSleepTwice` shows two sleeps when both `-i` and `-k` are given.
- The disk rates are `u64` values, and Rust ignores the precision in `{:.2}` for integers. The `IO:` segment therefore prints plain integers such as `IO: 1 1 kB/s`, not two decimals. The integer division by 1024 also truncates.
- In the source, `io_ul` comes from `read_bytes` and `io_dl` from `write_bytes`. The model keeps those names.

## Model

| member | source | states |
|---|---|---|
| `Selection.Selected` | src/main.rs:43-131 | `components` as built by the six flag tests: the canonical tags whose flag occurs exactly once, at most six characters, all from `pamwik` |
| `Selection.SelectedIff` | src/main.rs:43-131 | a tag is in `components` exactly when its flag occurs exactly once; zero occurrences and repeats such as `-pp` both leave it out |
| `Selection.SelectedOrdered` | src/main.rs:43-131 | `components` is strictly increasing in the canonical order p, a, m, w, i, k, so no tag appears twice |
| `Selection.SelectedCount` | src/main.rs:43-131 | each tag occurs once in `components` if its flag was given once, and not at all otherwise |
| `Selection.SelectedUnfold` | src/main.rs:43-131 | the selection is the six optional tags concatenated in the order `main` tests the flags |
| `Rates.DiskDelta` | src/main.rs:105-106 | `io_ul` and `io_dl` are the whole kilobytes (floor of bytes / 1024) read and written on "sda" between the snapshots |
| `Rates.DiskRates` | src/main.rs:98-107 | the disk rates exist exactly when both snapshot reads succeeded |
| `Rates.DiskDeltaBounds` | src/main.rs:105-106 | a disk rate never exceeds the later counter's kilobytes, and an unchanged counter gives (0, 0) |
| `Rates.DiskDeltaExample` | src/main.rs:102-106 | 1000→2024 bytes read and 500→1524 bytes written give the rates (1, 1) |
| `Rates.NetDelta` | src/main.rs:126-127 | `net_ul` and `net_dl` are non-negative, and 1024 times each equals the byte delta sent or received |
| `Rates.NetRates` | src/main.rs:119-128 | the network rates exist exactly when both snapshot reads succeeded |
| `Decimal.ToDecimal` | src/main.rs:195-197 | a disk rate prints as a nonempty digit string with no leading zero |
| `Decimal.DecimalRoundTrip` | src/main.rs:195-197 | reading the printed digits back gives the printed number |
| `Decimal.DecimalInjective` | src/main.rs:195-197 | different numbers print differently |
| `Report.PerCpuText` | src/main.rs:7-15 | `output_per_cpu`'s text: each core's `{:.1}` figure followed by `"% "`, in list order, so at least two characters per core |
| `Report.Segments` | src/main.rs:136-202 | the text the loop over `components` appends: each tag's segment, in the order of `components` (its properties are the `Segments*` lemmas) |
| `Report.Output` | src/main.rs:133-202 | the printed line: `" "` followed by the segments, so it is nonempty and starts and ends with `" "` |
| `Report.PerCpuSegment` | src/main.rs:137-140 | the `p` segment is nonempty and ends with the separator |
| `Report.AvgCpuSegment` | src/main.rs:141-147 | the `a` segment is nonempty and ends with the separator |
| `Report.MemorySegment` | src/main.rs:148-164 | the `m` segment is nonempty and ends with the separator |
| `Report.SwapSegment` | src/main.rs:165-181 | the `w` segment is nonempty and ends with the separator |
| `Report.NetSegment` | src/main.rs:182-191 | the `k` segment is nonempty and ends with the separator |
| `Report.IoSegment` | src/main.rs:192-201 | the `i` segment is nonempty and ends with the separator |
| `Report.Segment` | src/main.rs:136-202 | one tag adds text exactly when its result is present (both figures for `i` and `k`), and that text ends in `" "` |
| `Report.SegmentsAppend` | src/main.rs:136-202 | the segments of two consecutive pieces of `components` are the two texts in order |
| `Report.SegmentsEmptyIff` | src/main.rs:136-202 | no segment is added exactly when no tag of `components` has a present result |
| `Report.OutputShape` | src/main.rs:133-202 | the output starts and ends with `" "`, and it is exactly `" "` when, and only when, no tag has a present result |
| `Report.SegmentDrop` | src/main.rs:136-202 | clearing one metric's result empties its own segment and changes no other |
| `Report.DropRemovesOnlyItsSegment` | src/main.rs:136-202 | a missing result removes its own segment and leaves the others, in order, unchanged |
| `Report.PerCpuTextAppend` | src/main.rs:7-15 | `output_per_cpu` of a concatenated core list is the two texts in order |
| `Report.PerCpuTextSingle` | src/main.rs:7-15 | one core renders as its `{:.1}` figure followed by `"% "` |
| `Report.IoSegmentInjective` | src/main.rs:192-201 | the `IO:` segment can be read back: different disk rates give different segments |
| `Cli.Sampled` | src/main.rs:30-131 | the eight `Option` locals after the flag tests: a metric whose flag was not given exactly once stays `None`, and the two figures of a rate are both present exactly when its flag was given once and both snapshots succeeded |
| `Cli.OutputPerCpu` | src/main.rs:7-15 | the loop builds each core's figure plus `"% "` in list order (empty list gives `""`); the argument must be `Some`, as the source unwraps it |
| `Cli.SampleInstant` | src/main.rs:42-89 | the four instant flags append their tags in order and keep their read exactly when given once |
| `Cli.SampleDisk` | src/main.rs:98-107 | both disk rates are `None` when either snapshot failed; otherwise they are the "sda" delta |
| `Cli.SampleNet` | src/main.rs:119-128 | both network rates are `None` when either snapshot failed; otherwise they are the delta |
| `Cli.SampleRates` | src/main.rs:90-131 | the rate flags append `i`, `k` in order, keep their deltas, and sleep once each |
| `Cli.Sample` | src/main.rs:30-131 | `components` is the selection, the locals are the reads of the selected metrics, and `sleeps` is the number of rate tags in `components` |
| `Cli.RateTagsSelected` | src/main.rs:91-131 | the number of sleeps is one for `-i` plus one for `-k` |
| `Cli.AppendPerCpu` | src/main.rs:137-140 | the `p` branch appends `output_per_cpu`'s text and one separator |
| `Cli.AppendAvgCpu` | src/main.rs:141-147 | the `a` branch appends `avgCPU: <avg>% ` |
| `Cli.AppendMemory` | src/main.rs:148-164 | the `m` branch appends `MEM: <shared+used GiB>/<total GiB> GB `; the `u64` sum must not overflow |
| `Cli.AppendSwap` | src/main.rs:165-181 | the `w` branch appends `Swap: <used GiB>/<total GiB> GB ` |
| `Cli.AppendNet` | src/main.rs:182-191 | the `k` branch appends `NET: <ul> <dl> kB/s ` |
| `Cli.AppendIo` | src/main.rs:192-201 | the `i` branch appends `IO: <ul> <dl> kB/s ` with the integers in decimal |
| `Cli.AppendSegment` | src/main.rs:136-202 | one pass of the loop appends exactly that tag's segment, or nothing when its result is absent |
| `Cli.Assemble` | src/main.rs:133-202 | the output is `" "` followed by the segments of `components` in order |
| `Cli.Run` | src/main.rs:30-204 | the printed line is the specified output of the selection and the sampled results, and the run sleeps once per selected rate metric |
| `Properties.OutputInCanonicalOrder` | src/main.rs:43-202 | the line is `" "` followed by the p, a, m, w, i, k segments in that order, each included only if its flag was given exactly once |
| `Properties.SampledPresence` | src/main.rs:43-131 | a metric is reported exactly when its flag occurs once and its read (for a rate, both snapshots) succeeded |
| `Properties.FailIsDrop` | src/main.rs:46-128 | a failed read clears that metric's locals and nothing else; for a rate metric this holds whichever of its two snapshots failed |
| `Properties.FailedReadOmitsOnlyItsSegment` | src/main.rs:43-202 | when one metric's read fails (for a rate, either snapshot), the line is the one printed without that metric; every other segment is unchanged |
| `Properties.DiskSecondSnapshotFailure` | src/main.rs:97-107 | a failed second disk snapshot (after the sleep) drops the `IO:` segment and changes nothing else in the line |
| `Properties.NetSecondSnapshotFailure` | src/main.rs:118-128 | a failed second network snapshot drops the `NET:` segment and changes nothing else in the line |
| `Properties.NoFlagsGivesSeparator` | src/main.rs:133-134 | with no flag given exactly once, the line is exactly `" "` |
| `Properties.AllReadsFailedGivesSeparator` | src/main.rs:133-202 | when every read behind a selected metric fails, the line is exactly `" "`, whatever the unselected reads would return |
| `Properties.BothRatesSleepTwice` | src/main.rs:91-131 | with `-i` and `-k` both given, the run sleeps twice |
| `Properties.DiskExample` | src/main.rs:91-110 | with only `-i` and 1024 bytes read and written on "sda", the line is `" IO: 1 1 kB/s "` |
| `Properties.MemoryExample` | src/main.rs:148-164 | 2 GiB used of 8 GiB renders the values 2.0 and 8.0 in the `MEM:` segment |

## Left out

- Command-line parsing with clap (lines 18-28). Its result is modelled as an occurrence count per flag (`Occurrences`), so the order of flags on the command line does not appear in the model.
- The psutil reads (lines 46, 59, 72, 83, 94-97, 115-118). These are foreign calls; their results are the `OsReads` parameter, with `None` for an `Err`. The one-second window inside `cpu_percent_percpu(1.0)` and `cpu_percent(1.0)` is not modelled.
- `sleep(Duration::from_secs(1))` (lines 96, 117). Only the number of sleeps is modelled, not their timing or blocking.
- `f64` arithmetic and the `{:.1}`/`{:.2}` float formatting (lines 10, 126-127, 144, 154, 158, 171, 175, 185, 187). Values are exact reals with no rounding, and formatting is an arbitrary `Renderer`.
- Panics (the `unwrap` in `output_per_cpu`, indexing the disk map with "sda", `u64` underflow in the deltas, `u64` overflow of `shared + used`). These are preconditions (`RatesDefined`, `MemoryFits`, `perCpu.Some?`); the wrap-around a release build would perform is not modelled.
- `println!` (line 204). This is I/O; the model stops at the line to be printed, without its newline.
