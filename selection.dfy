/** Metric selection: which tag characters `main` appends to `components`.
    Each flag is tested with `occurrences_of(..) == 1`, in the fixed order
    p, a, m, w, i, k. */
module Selection {
  import opened Types

  /** The order in which `main` tests the flags. */
  const Canonical: string := "pamwik"

  /** The occurrence count of the flag behind tag `c` (zero for other characters). */
  function FlagCount(flags: Occurrences, c: char): nat {
    match c
    case 'p' => flags.pcpu
    case 'a' => flags.acpu
    case 'm' => flags.vmem
    case 'w' => flags.smem
    case 'i' => flags.io
    case 'k' => flags.net
    case _ => 0
  }

  /** A flag selects its metric only when it occurs exactly once. */
  predicate Chosen(flags: Occurrences, c: char) {
    FlagCount(flags, c) == 1
  }

  /** The tags of `tags` whose flag is chosen, in the order of `tags`. */
  function SelectFrom(flags: Occurrences, tags: string): (r: string)
    ensures |r| <= |tags|
    ensures forall i :: 0 <= i < |r| ==> r[i] in tags
  {
    if tags == [] then []
    else SelectFrom(flags, tags[..|tags| - 1]) + Opt(flags, tags[|tags| - 1])
  }

  /** The `components` string that `main` builds. */
  function Selected(flags: Occurrences): (r: string)
    ensures |r| <= |Canonical|
    ensures forall i :: 0 <= i < |r| ==> r[i] in Canonical
  {
    SelectFrom(flags, Canonical)
  }

  /** Position of a tag in the canonical order (6 for any other character). */
  function Rank(c: char): nat {
    match c
    case 'p' => 0
    case 'a' => 1
    case 'm' => 2
    case 'w' => 3
    case 'i' => 4
    case 'k' => 5
    case _ => 6
  }

  predicate StrictlyRanked(s: string) {
    forall i, j :: 0 <= i < j < |s| ==> Rank(s[i]) < Rank(s[j])
  }

  /** The tag of `flags`' selection contributed by one flag, spelled out. */
  function Opt(flags: Occurrences, c: char): string {
    if Chosen(flags, c) then [c] else []
  }

  lemma {:induction false} SelectFromMember(flags: Occurrences, tags: string, c: char)
    ensures c in SelectFrom(flags, tags) <==> c in tags && Chosen(flags, c)
    decreases |tags|
  {
    if tags != [] {
      var init := tags[..|tags| - 1];
      SelectFromMember(flags, init, c);
      assert tags == init + [tags[|tags| - 1]];
    }
  }

  lemma {:induction false} SelectFromRanked(flags: Occurrences, tags: string)
    requires StrictlyRanked(tags)
    ensures StrictlyRanked(SelectFrom(flags, tags))
    decreases |tags|
  {
    if tags != [] {
      var init, last := tags[..|tags| - 1], tags[|tags| - 1];
      assert StrictlyRanked(init) by {
        forall i, j | 0 <= i < j < |init| ensures Rank(init[i]) < Rank(init[j]) {
          assert init[i] == tags[i] && init[j] == tags[j];
        }
      }
      SelectFromRanked(flags, init);
      var head := SelectFrom(flags, init);
      forall k | 0 <= k < |head| ensures Rank(head[k]) < Rank(last) {
        SelectFromMember(flags, init, head[k]);
        var m :| 0 <= m < |init| && init[m] == head[k];
        assert init[m] == tags[m];
      }
    }
  }

  lemma {:induction false} SelectFromCount(flags: Occurrences, tags: string, d: char)
    ensures multiset(SelectFrom(flags, tags))[d] == if Chosen(flags, d) then multiset(tags)[d] else 0
    decreases |tags|
  {
    if tags != [] {
      var init := tags[..|tags| - 1];
      SelectFromCount(flags, init, d);
      assert tags == init + [tags[|tags| - 1]];
    }
  }

  /** Each tag occurs in `components` once if its flag was given once, and
      not at all otherwise. */
  lemma SelectedCount(flags: Occurrences, c: char)
    ensures multiset(Selected(flags))[c] == if c in Canonical && Chosen(flags, c) then 1 else 0
  {
    SelectFromCount(flags, Canonical, c);
    CanonicalCount(c);
  }

  lemma CanonicalCount(c: char)
    ensures multiset(Canonical)[c] == if c in Canonical then 1 else 0
  {
    var t := Canonical;
    assert t == [t[0]] + [t[1]] + [t[2]] + [t[3]] + [t[4]] + [t[5]];
  }

  /** A metric is selected exactly when its flag occurs exactly once: zero
      occurrences and repeated flags (`-pp`) both leave it out. */
  lemma SelectedIff(flags: Occurrences, c: char)
    ensures c in Selected(flags) <==> c in Canonical && FlagCount(flags, c) == 1
  {
    SelectFromMember(flags, Canonical, c);
  }

  /** `components` lists the selected tags in canonical order, so each tag
      occurs at most once. */
  lemma SelectedOrdered(flags: Occurrences)
    ensures StrictlyRanked(Selected(flags))
    ensures forall i, j :: 0 <= i < j < |Selected(flags)| ==> Selected(flags)[i] != Selected(flags)[j]
  {
    SelectFromRanked(flags, Canonical);
  }

  /** The selection written out flag by flag, in the order `main` tests them. */
  lemma SelectedUnfold(flags: Occurrences)
    ensures Selected(flags)
            == Opt(flags, 'p') + Opt(flags, 'a') + Opt(flags, 'm')
               + Opt(flags, 'w') + Opt(flags, 'i') + Opt(flags, 'k')
  {
    SelectFromSix(flags, Canonical);
  }

  lemma SelectFromSix(flags: Occurrences, t: string)
    requires |t| == 6
    ensures SelectFrom(flags, t)
            == Opt(flags, t[0]) + Opt(flags, t[1]) + Opt(flags, t[2])
               + Opt(flags, t[3]) + Opt(flags, t[4]) + Opt(flags, t[5])
  {
    var o0, o1, o2 := Opt(flags, t[0]), Opt(flags, t[1]), Opt(flags, t[2]);
    var o3, o4, o5 := Opt(flags, t[3]), Opt(flags, t[4]), Opt(flags, t[5]);
    SelectFromLast(flags, t, 0);
    assert t[..0] == [];
    assert SelectFrom(flags, t[..1]) == o0;
    SelectFromLast(flags, t, 1);
    assert SelectFrom(flags, t[..2]) == o0 + o1;
    SelectFromLast(flags, t, 2);
    assert SelectFrom(flags, t[..3]) == o0 + o1 + o2;
    SelectFromLast(flags, t, 3);
    assert SelectFrom(flags, t[..4]) == o0 + o1 + o2 + o3;
    SelectFromLast(flags, t, 4);
    assert SelectFrom(flags, t[..5]) == o0 + o1 + o2 + o3 + o4;
    SelectFromLast(flags, t, 5);
    assert t[..6] == t;
  }

  lemma SelectFromLast(flags: Occurrences, t: string, k: nat)
    requires k < |t|
    ensures SelectFrom(flags, t[..k + 1]) == SelectFrom(flags, t[..k]) + Opt(flags, t[k])
  {
    assert t[..k + 1][..k] == t[..k];
  }
}
