/** Report assembly: the text `main` prints. It starts with one separator
    " "; then, for each tag of `components` in order, a present result adds
    one labelled segment that ends in " ", and an absent result adds nothing. */
module Report {
  import opened Types
  import Decimal

  const Separator: string := " "

  /** Bytes in a GiB, the divisor of the memory figures. */
  const GiB: int := 1024 * 1024 * 1024

  /** What `output_per_cpu` returns: every core's `{:.1}` figure followed by
      "% ", in list order. */
  function PerCpuText(cores: seq<real>, fmt: Renderer): (r: string)
    ensures |r| >= 2 * |cores|
  {
    if cores == [] then ""
    else PerCpuText(cores[..|cores| - 1], fmt) + fmt.oneDecimal(cores[|cores| - 1]) + "% "
  }

  /** Whether the result behind tag `c` is there to be reported. The rate
      metrics need both of their figures. */
  predicate Present(c: char, s: Samples) {
    match c
    case 'p' => s.perCpu.Some?
    case 'a' => s.avgCpu.Some?
    case 'm' => s.memory.Some?
    case 'w' => s.swap.Some?
    case 'i' => s.ioUl.Some? && s.ioDl.Some?
    case 'k' => s.netUl.Some? && s.netDl.Some?
    case _ => false
  }

  /** The memory segment: used (shared plus used) over total, in GiB. */
  function MemorySegment(m: VirtualMemory, fmt: Renderer): (r: string)
    ensures |r| > 0 && r[|r| - 1] == ' '
  {
    "MEM:" + Separator
    + fmt.twoDecimals((m.shared as int + m.used as int) as real / GiB as real) + "/"
    + fmt.twoDecimals(m.total as int as real / GiB as real)
    + Separator + "GB" + Separator
  }

  /** The swap segment: used over total, in GiB. */
  function SwapSegment(m: SwapMemory, fmt: Renderer): (r: string)
    ensures |r| > 0 && r[|r| - 1] == ' '
  {
    "Swap:" + Separator
    + fmt.twoDecimals(m.used as int as real / GiB as real) + "/"
    + fmt.twoDecimals(m.total as int as real / GiB as real)
    + Separator + "GB" + Separator
  }

  /** The disk segment; the figures are `u64`s, printed as plain integers. */
  function IoSegment(ul: U64, dl: U64): (r: string)
    ensures |r| > 0 && r[|r| - 1] == ' '
  {
    "IO:" + Separator + Decimal.ToDecimal(ul as nat) + Separator
    + Decimal.ToDecimal(dl as nat) + Separator + "kB/s" + Separator
  }

  /** The network segment: upload and download in kB/s. */
  function NetSegment(ul: real, dl: real, fmt: Renderer): (r: string)
    ensures |r| > 0 && r[|r| - 1] == ' '
  {
    "NET:" + Separator + fmt.twoDecimals(ul) + Separator
    + fmt.twoDecimals(dl) + Separator + "kB/s" + Separator
  }

  /** The per-core segment: `output_per_cpu`'s text and one more separator. */
  function PerCpuSegment(cores: seq<real>, fmt: Renderer): (r: string)
    ensures |r| > 0 && r[|r| - 1] == ' '
  {
    PerCpuText(cores, fmt) + Separator
  }

  /** The average-CPU segment. */
  function AvgCpuSegment(avg: real, fmt: Renderer): (r: string)
    ensures |r| > 0 && r[|r| - 1] == ' '
  {
    "avgCPU:" + Separator + fmt.twoDecimals(avg) + "%" + Separator
  }

  /** What one tag of `components` adds to the output: something, ending in
      the separator, exactly when its result is present. */
  function Segment(c: char, s: Samples, fmt: Renderer): (r: string)
    ensures r != [] <==> Present(c, s)
    ensures r != [] ==> r[|r| - 1] == ' '
  {
    if !Present(c, s) then ""
    else match c
      case 'p' => PerCpuSegment(s.perCpu.value, fmt)
      case 'a' => AvgCpuSegment(s.avgCpu.value, fmt)
      case 'm' => MemorySegment(s.memory.value, fmt)
      case 'w' => SwapSegment(s.swap.value, fmt)
      case 'i' => IoSegment(s.ioUl.value, s.ioDl.value)
      case 'k' => NetSegment(s.netUl.value, s.netDl.value, fmt)
  }

  /** The segments of `components`, in order. */
  function Segments(cs: string, s: Samples, fmt: Renderer): string {
    if cs == [] then "" else Segments(cs[..|cs| - 1], s, fmt) + Segment(cs[|cs| - 1], s, fmt)
  }

  /** The whole printed line (without the newline `println!` adds). */
  function Output(cs: string, s: Samples, fmt: Renderer): (r: string)
    ensures |r| >= 1 && r[0] == ' ' && r[|r| - 1] == ' '
  {
    SegmentsEndInSeparator(cs, s, fmt);
    Separator + Segments(cs, s, fmt)
  }

  /** The results with those behind tag `c` cleared, as a failed read leaves them. */
  function Drop(s: Samples, c: char): Samples {
    match c
    case 'p' => s.(perCpu := None)
    case 'a' => s.(avgCpu := None)
    case 'm' => s.(memory := None)
    case 'w' => s.(swap := None)
    case 'i' => s.(ioUl := None, ioDl := None)
    case 'k' => s.(netUl := None, netDl := None)
    case _ => s
  }

  /** `cs` without the occurrences of `c`. */
  function Remove(cs: string, c: char): string {
    if cs == [] then []
    else Remove(cs[..|cs| - 1], c) + (if cs[|cs| - 1] == c then [] else [cs[|cs| - 1]])
  }

  /** The segments of two pieces of `components` are the two texts one after the other. */
  lemma {:induction false} SegmentsAppend(a: string, b: string, s: Samples, fmt: Renderer)
    ensures Segments(a + b, s, fmt) == Segments(a, s, fmt) + Segments(b, s, fmt)
    decreases |b|
  {
    if b != [] {
      var b' := b[..|b| - 1];
      assert (a + b)[..|a + b| - 1] == a + b';
      assert (a + b)[|a + b| - 1] == b[|b| - 1];
      SegmentsAppend(a, b', s, fmt);
    } else {
      assert a + b == a;
    }
  }

  /** No segment at all exactly when no tag has a present result. */
  lemma {:induction false} SegmentsEmptyIff(cs: string, s: Samples, fmt: Renderer)
    ensures Segments(cs, s, fmt) == "" <==> forall i :: 0 <= i < |cs| ==> !Present(cs[i], s)
    decreases |cs|
  {
    if cs != [] {
      var init := cs[..|cs| - 1];
      SegmentsEmptyIff(init, s, fmt);
      if forall i :: 0 <= i < |cs| ==> !Present(cs[i], s) {
        assert forall i :: 0 <= i < |init| ==> !Present(init[i], s) by {
          forall i | 0 <= i < |init| ensures !Present(init[i], s) {
            assert init[i] == cs[i];
          }
        }
      } else {
        var i :| 0 <= i < |cs| && Present(cs[i], s);
        if i < |init| {
          assert init[i] == cs[i];
        }
      }
    }
  }

  /** The output always starts with the separator and ends with one. It is
      exactly the separator when, and only when, no selected result is present,
      which covers the case of no flags at all. */
  lemma OutputShape(cs: string, s: Samples, fmt: Renderer)
    ensures |Output(cs, s, fmt)| >= 1
    ensures Output(cs, s, fmt)[0] == ' '
    ensures Output(cs, s, fmt)[|Output(cs, s, fmt)| - 1] == ' '
    ensures Output(cs, s, fmt) == " " <==> forall i :: 0 <= i < |cs| ==> !Present(cs[i], s)
  {
    SegmentsEmptyIff(cs, s, fmt);
  }

  lemma {:induction false} SegmentsEndInSeparator(cs: string, s: Samples, fmt: Renderer)
    ensures var t := Segments(cs, s, fmt); t != [] ==> t[|t| - 1] == ' '
    decreases |cs|
  {
    if cs != [] {
      SegmentsEndInSeparator(cs[..|cs| - 1], s, fmt);
    }
  }

  /** Fault isolation: a result that is absent removes its own segment and
      leaves every other segment, in order, as it was. */
  lemma {:induction false} DropRemovesOnlyItsSegment(cs: string, s: Samples, c: char, fmt: Renderer)
    ensures Segments(cs, Drop(s, c), fmt) == Segments(Remove(cs, c), s, fmt)
    decreases |cs|
  {
    if cs != [] {
      var init, last := cs[..|cs| - 1], cs[|cs| - 1];
      DropRemovesOnlyItsSegment(init, s, c, fmt);
      var rest := if last == c then [] else [last];
      SegmentsAppend(Remove(init, c), rest, s, fmt);
      SegmentDrop(last, s, c, fmt);
      if last != c {
        SegmentsSingle(last, s, fmt);
      }
    }
  }

  lemma SegmentsSingle(c: char, s: Samples, fmt: Renderer)
    ensures Segments([c], s, fmt) == Segment(c, s, fmt)
  {
    assert [c][..0] == [];
  }

  /** Clearing the results of `c` empties its segment and no other. */
  lemma SegmentDrop(d: char, s: Samples, c: char, fmt: Renderer)
    ensures Segment(d, Drop(s, c), fmt) == if d == c then "" else Segment(d, s, fmt)
  {
    var t := Drop(s, c);
    if d == c {
      assert !Present(d, t);
    } else {
      match d
      case 'p' => assert t.perCpu == s.perCpu;
      case 'a' => assert t.avgCpu == s.avgCpu;
      case 'm' => assert t.memory == s.memory;
      case 'w' => assert t.swap == s.swap;
      case 'i' => assert t.ioUl == s.ioUl && t.ioDl == s.ioDl;
      case 'k' => assert t.netUl == s.netUl && t.netDl == s.netDl;
      case _ => assert !Present(d, t) && !Present(d, s);
    }
  }

  /** `output_per_cpu` of two lists of cores is the two texts one after the
      other; an empty list gives the empty string. */
  lemma {:induction false} PerCpuTextAppend(a: seq<real>, b: seq<real>, fmt: Renderer)
    ensures PerCpuText(a + b, fmt) == PerCpuText(a, fmt) + PerCpuText(b, fmt)
    decreases |b|
  {
    if b != [] {
      var b' := b[..|b| - 1];
      assert (a + b)[..|a + b| - 1] == a + b';
      assert (a + b)[|a + b| - 1] == b[|b| - 1];
      PerCpuTextAppend(a, b', fmt);
    } else {
      assert a + b == a;
    }
  }

  /** One core gives its figure followed by "% ". */
  lemma PerCpuTextSingle(x: real, fmt: Renderer)
    ensures PerCpuText([x], fmt) == fmt.oneDecimal(x) + "% "
  {
    assert [x][..0] == [];
  }

  /** Two texts ending in equally long pieces have equal beginnings and ends. */
  lemma SuffixCancel(x: string, y: string, x': string, y': string)
    requires x + y == x' + y' && |y| == |y'|
    ensures x == x' && y == y'
  {
    var t := x + y;
    assert x == t[..|x|] && x' == (x' + y')[..|x'|];
    assert y == t[|x|..] && y' == (x' + y')[|x'|..];
  }

  /** Digits after a space can be split off unambiguously. */
  lemma DigitsAfterSpace(u: string, b: string, u': string, b': string)
    requires u + b == u' + b'
    requires |u| > 0 && u[|u| - 1] == ' ' && |u'| > 0 && u'[|u'| - 1] == ' '
    requires Decimal.AllDigits(b) && Decimal.AllDigits(b')
    ensures u == u' && b == b'
  {
    var t, t' := u + b, u' + b';
    assert t[|u| - 1] == ' ' && t'[|u'| - 1] == ' ';
    assert forall k :: |u| <= k < |t| ==> t[k] == b[k - |u|] && Decimal.IsDigit(b[k - |u|]);
    assert forall k :: |u'| <= k < |t'| ==> t'[k] == b'[k - |u'|] && Decimal.IsDigit(b'[k - |u'|]);
    assert |u| == |u'|;
    SuffixCancel(u, b, u', b');
  }

  /** The disk segment can be read back: different rates print differently. */
  lemma IoSegmentInjective(ul: U64, dl: U64, ul': U64, dl': U64)
    requires IoSegment(ul, dl) == IoSegment(ul', dl')
    ensures ul == ul' && dl == dl'
  {
    var a, b := Decimal.ToDecimal(ul as nat), Decimal.ToDecimal(dl as nat);
    var a', b' := Decimal.ToDecimal(ul' as nat), Decimal.ToDecimal(dl' as nat);
    var h := "IO:" + Separator;
    var s4, s4' := h + a + Separator, h + a' + Separator;
    var s2, s2' := s4 + b + Separator, s4' + b' + Separator;
    assert IoSegment(ul, dl) == s2 + "kB/s" + Separator;
    assert IoSegment(ul', dl') == s2' + "kB/s" + Separator;
    SuffixCancel(s2 + "kB/s", Separator, s2' + "kB/s", Separator);
    SuffixCancel(s2, "kB/s", s2', "kB/s");
    SuffixCancel(s4 + b, Separator, s4' + b', Separator);
    DigitsAfterSpace(s4, b, s4', b');
    SuffixCancel(h + a, Separator, h + a', Separator);
    assert a == (h + a)[|h|..] && a' == (h + a')[|h|..];
    Decimal.DecimalInjective(ul as nat, ul' as nat);
    Decimal.DecimalInjective(dl as nat, dl' as nat);
  }
}
