/** What the printed line of one run is, stated over all flag counts and all
    operating-system reads: canonical order, fault isolation, the bare
    separator when nothing is reported, and two worked examples. */
module Properties {
  import opened Types
  import opened Selection
  import opened Rates
  import opened Report
  import opened Cli

  /** A tag's flag's share of the selection's text. */
  function Part(flags: Occurrences, c: char, s: Samples, fmt: Renderer): string {
    if Chosen(flags, c) then Segment(c, s, fmt) else ""
  }

  /** The segments appear in the order p, a, m, w, i, k whatever the results,
      each one only if its flag was given exactly once. */
  lemma OutputInCanonicalOrder(flags: Occurrences, s: Samples, fmt: Renderer)
    ensures Output(Selected(flags), s, fmt)
            == " " + (Part(flags, 'p', s, fmt) + Part(flags, 'a', s, fmt) + Part(flags, 'm', s, fmt)
                      + Part(flags, 'w', s, fmt) + Part(flags, 'i', s, fmt) + Part(flags, 'k', s, fmt))
  {
    SelectedUnfold(flags);
    var p, a, m := Opt(flags, 'p'), Opt(flags, 'a'), Opt(flags, 'm');
    var w, i, k := Opt(flags, 'w'), Opt(flags, 'i'), Opt(flags, 'k');
    SegmentsOfOpt(flags, 'p', s, fmt);
    SegmentsOfOpt(flags, 'a', s, fmt);
    SegmentsOfOpt(flags, 'm', s, fmt);
    SegmentsOfOpt(flags, 'w', s, fmt);
    SegmentsOfOpt(flags, 'i', s, fmt);
    SegmentsOfOpt(flags, 'k', s, fmt);
    SegmentsSix(p, a, m, w, i, k, s, fmt);
    var tp, ta, tm := Part(flags, 'p', s, fmt), Part(flags, 'a', s, fmt), Part(flags, 'm', s, fmt);
    var tw, ti, tk := Part(flags, 'w', s, fmt), Part(flags, 'i', s, fmt), Part(flags, 'k', s, fmt);
    assert Segments(Selected(flags), s, fmt) == tp + ta + tm + tw + ti + tk;
  }

  lemma SegmentsSix(p: string, a: string, m: string, w: string, i: string, k: string, s: Samples, fmt: Renderer)
    ensures Segments(p + a + m + w + i + k, s, fmt)
            == Segments(p, s, fmt) + Segments(a, s, fmt) + Segments(m, s, fmt)
               + Segments(w, s, fmt) + Segments(i, s, fmt) + Segments(k, s, fmt)
  {
    SegmentsAppend(p, a, s, fmt);
    SegmentsAppend(p + a, m, s, fmt);
    SegmentsAppend(p + a + m, w, s, fmt);
    SegmentsAppend(p + a + m + w, i, s, fmt);
    SegmentsAppend(p + a + m + w + i, k, s, fmt);
  }

  lemma SegmentsOfOpt(flags: Occurrences, c: char, s: Samples, fmt: Renderer)
    ensures Segments(Opt(flags, c), s, fmt) == Part(flags, c, s, fmt)
  {
    if Chosen(flags, c) {
      SegmentsSingle(c, s, fmt);
    }
  }

  /** A metric is reported exactly when its flag occurs once and its read
      (for a rate: both snapshots) succeeded. */
  lemma SampledPresence(flags: Occurrences, os: OsReads, c: char)
    requires RatesDefined(flags, os)
    requires c in Canonical
    ensures Present(c, Sampled(flags, os)) <==> FlagCount(flags, c) == 1 && ReadOk(c, os)
  {
  }

  /** A failed read clears that metric's results and nothing else, whichever
      of a rate metric's two snapshots failed. */
  lemma FailIsDrop(flags: Occurrences, os: OsReads, os': OsReads, c: char)
    requires RatesDefined(flags, os)
    requires FailedOnly(os, os', c)
    ensures RatesDefined(flags, os')
    ensures Sampled(flags, os') == Drop(Sampled(flags, os), c)
  {
    var before, after := Sampled(flags, os), Sampled(flags, os');
    match c
    case 'p' => assert after == before.(perCpu := None);
    case 'a' => assert after == before.(avgCpu := None);
    case 'm' => assert after == before.(memory := None);
    case 'w' => assert after == before.(swap := None);
    case 'i' => assert after == before.(ioUl := None, ioDl := None);
    case 'k' => assert after == before.(netUl := None, netDl := None);
    case _ => assert after == before;
  }

  /** Fault isolation: when the read behind one metric fails (for a rate, either
      snapshot), the line is the one printed without that metric, and every
      other segment is unchanged. */
  lemma FailedReadOmitsOnlyItsSegment(flags: Occurrences, os: OsReads, os': OsReads, c: char, fmt: Renderer)
    requires RatesDefined(flags, os)
    requires FailedOnly(os, os', c)
    ensures RatesDefined(flags, os')
    ensures Output(Selected(flags), Sampled(flags, os'), fmt)
            == Output(Remove(Selected(flags), c), Sampled(flags, os), fmt)
  {
    FailIsDrop(flags, os, os', c);
    DropRemovesOnlyItsSegment(Selected(flags), Sampled(flags, os), c, fmt);
  }

  /** The disk's second snapshot failing (the current read after the sleep)
      drops the `IO:` segment and nothing else. */
  lemma DiskSecondSnapshotFailure(flags: Occurrences, os: OsReads, fmt: Renderer)
    requires RatesDefined(flags, os)
    ensures RatesDefined(flags, os.(diskCurrent := None))
    ensures Output(Selected(flags), Sampled(flags, os.(diskCurrent := None)), fmt)
            == Output(Remove(Selected(flags), 'i'), Sampled(flags, os), fmt)
  {
    FailedReadOmitsOnlyItsSegment(flags, os, os.(diskCurrent := None), 'i', fmt);
  }

  /** The network's second snapshot failing drops the `NET:` segment and
      nothing else. */
  lemma NetSecondSnapshotFailure(flags: Occurrences, os: OsReads, fmt: Renderer)
    requires RatesDefined(flags, os)
    ensures RatesDefined(flags, os.(netCurrent := None))
    ensures Output(Selected(flags), Sampled(flags, os.(netCurrent := None)), fmt)
            == Output(Remove(Selected(flags), 'k'), Sampled(flags, os), fmt)
  {
    FailedReadOmitsOnlyItsSegment(flags, os, os.(netCurrent := None), 'k', fmt);
  }

  /** Without any flag given exactly once, the line is the bare separator. */
  lemma NoFlagsGivesSeparator(flags: Occurrences, os: OsReads, fmt: Renderer)
    requires RatesDefined(flags, os)
    requires flags.pcpu != 1 && flags.acpu != 1 && flags.vmem != 1
    requires flags.smem != 1 && flags.io != 1 && flags.net != 1
    ensures Output(Selected(flags), Sampled(flags, os), fmt) == " "
  {
    SelectedUnfold(flags);
  }

  /** When every selected read failed, the line is the bare separator too;
      the reads of unselected metrics do not matter. */
  lemma AllReadsFailedGivesSeparator(flags: Occurrences, os: OsReads, fmt: Renderer)
    requires RatesDefined(flags, os)
    requires forall c :: c in Canonical && FlagCount(flags, c) == 1 ==> !ReadOk(c, os)
    ensures Output(Selected(flags), Sampled(flags, os), fmt) == " "
  {
    var sel, s := Selected(flags), Sampled(flags, os);
    forall i | 0 <= i < |sel| ensures !Present(sel[i], s) {
      SelectedIff(flags, sel[i]);
      SampledPresence(flags, os, sel[i]);
    }
    OutputShape(sel, s, fmt);
  }

  /** Both rate metrics selected: `main` sleeps twice, once per metric. */
  lemma BothRatesSleepTwice(flags: Occurrences)
    requires flags.io == 1 && flags.net == 1
    ensures RateTags(Selected(flags)) == 2
  {
    RateTagsSelected(flags);
  }

  /** Only `-i` given. */
  const DiskOnly: Occurrences := Occurrences(0, 0, 0, 0, 1, 0)

  /** 1024 bytes read and 1024 written on "sda" between the snapshots. */
  const DiskReads: OsReads :=
    OsReads(None, None, None, None,
            Some(map[Device := DiskCounters(1000, 500)]),
            Some(map[Device := DiskCounters(2024, 1524)]), None, None)

  /** With only `-i` and one kilobyte each way, the line is " IO: 1 1 kB/s ". */
  lemma DiskExample(fmt: Renderer)
    ensures RatesDefined(DiskOnly, DiskReads)
    ensures Output(Selected(DiskOnly), Sampled(DiskOnly, DiskReads), fmt) == " IO: 1 1 kB/s "
  {
    DiskExampleSelection();
    DiskExampleSamples();
    var s := NoSamples.(ioUl := Some(1), ioDl := Some(1));
    DiskExampleText(fmt);
    assert Output(Selected(DiskOnly), Sampled(DiskOnly, DiskReads), fmt) == Output("i", s, fmt);
  }

  lemma DiskExampleSelection()
    ensures Selected(DiskOnly) == "i"
  {
    SelectedUnfold(DiskOnly);
  }

  lemma DiskExampleText(fmt: Renderer)
    ensures Output("i", NoSamples.(ioUl := Some(1), ioDl := Some(1)), fmt) == " IO: 1 1 kB/s "
  {
    var s := NoSamples.(ioUl := Some(1), ioDl := Some(1));
    SegmentsSingle('i', s, fmt);
    assert Present('i', s);
    var seg := Segment('i', s, fmt);
    assert seg == IoSegment(1, 1);
    IoSegmentOne();
    assert Output("i", s, fmt) == Separator + seg;
    LeadingSeparator();
  }

  /** The literal equality, kept apart so that it is proved in a small context. */
  lemma LeadingSeparator()
    ensures Separator + "IO: 1 1 kB/s " == " IO: 1 1 kB/s "
  {
  }

  lemma IoSegmentOne()
    ensures IoSegment(1, 1) == "IO: 1 1 kB/s "
  {
    assert Decimal.ToDecimal(1) == "1";
  }

  lemma DiskExampleSamples()
    ensures RatesDefined(DiskOnly, DiskReads)
    ensures Sampled(DiskOnly, DiskReads) == NoSamples.(ioUl := Some(1), ioDl := Some(1))
  {
    DiskDeltaExample();
  }

  /** 2 GiB used of 8 GiB: the memory segment renders 2.0 and 8.0. */
  lemma MemoryExample(fmt: Renderer)
    ensures MemorySegment(VirtualMemory(8589934592, 2147483648, 0), fmt)
            == "MEM: " + fmt.twoDecimals(2.0) + "/" + fmt.twoDecimals(8.0) + " GB "
  {
  }
}
