/** The correction estimator of SFP-Ver0.2.py: the expected correction an
    osteotomy is created with (draw_complete_osteotomy), the preview label
    (update_correction_label), and the rules by which applied osteotomies
    shift the simulated measurements (apply_osteotomy_corrections). */
module Corrections {
  import opened Engine

  /** The radio button's three values. */
  datatype OsteotomyType = SPO | PSO | VCR

  /** One entry of osteotomy_lines.  technique, level and side come from
      editable comboboxes, so any text is possible. */
  datatype Osteotomy = Osteotomy(
    kind: OsteotomyType,
    technique: string,
    level: string,
    side: string,
    points: seq<Point>,
    applied: bool,
    expectedCorrection: real)

  /** The levels the level combobox offers. */
  const PresetLevels: seq<string> :=
    ["T4", "T5", "T6", "T7", "T8", "T9", "T10", "T11", "T12", "L1", "L2", "L3", "L4", "L5", "S1"]

  /** Degrees of correction before any adjustment: 10 per SPO level, 30 for
      a PSO, 45 for a VCR. */
  function BaseCorrection(kind: OsteotomyType, numLevels: int): real {
    match kind
    case SPO => 10.0 * numLevels as real
    case PSO => 30.0
    case VCR => 45.0
  }

  /** What draw_complete_osteotomy stores: the base, times 0.7 unless the
      side is "Symmetric".  The technique plays no part. */
  function ExpectedCorrection(kind: OsteotomyType, side: string, numLevels: int): (r: real)
    ensures kind == SPO ==> r == (if side == "Symmetric" then 10.0 else 7.0) * numLevels as real
    ensures kind == PSO ==> r == (if side == "Symmetric" then 30.0 else 21.0)
    ensures kind == VCR ==> r == (if side == "Symmetric" then 45.0 else 31.5)
  {
    var base := BaseCorrection(kind, numLevels);
    if side != "Symmetric" then base * 0.7 else base
  }

  /** What update_correction_label shows: the same, and then times 0.8 for
      an "Open" technique. */
  function PreviewCorrection(kind: OsteotomyType, technique: string, side: string, numLevels: int): real {
    var base := BaseCorrection(kind, numLevels);
    var sided := if side != "Symmetric" then base * 0.7 else base;
    if technique == "Open" then sided * 0.8 else sided
  }

  /** The preview and the stored value agree except for an "Open" technique,
      where the preview is 80% of what the osteotomy is created with. */
  lemma PreviewVersusStored(kind: OsteotomyType, technique: string, side: string, numLevels: int)
    ensures technique != "Open" ==> PreviewCorrection(kind, technique, side, numLevels) == ExpectedCorrection(kind, side, numLevels)
    ensures technique == "Open" ==> PreviewCorrection(kind, technique, side, numLevels) == 0.8 * ExpectedCorrection(kind, side, numLevels)
  {
  }

  /** With the spinbox's 1 to 6 levels, a stored correction lies between
      7 degrees (one asymmetric SPO level) and 60 (six symmetric SPO levels). */
  lemma ExpectedCorrectionBounds(kind: OsteotomyType, side: string, numLevels: int)
    requires 1 <= numLevels <= 6
    ensures 7.0 <= ExpectedCorrection(kind, side, numLevels) <= 60.0
    ensures kind == PSO ==> ExpectedCorrection(kind, side, numLevels) in {30.0, 21.0}
    ensures kind == VCR ==> ExpectedCorrection(kind, side, numLevels) in {45.0, 31.5}
  {
  }

  /** str.startswith. */
  predicate StartsWith(s: string, prefix: string) {
    prefix <= s
  }

  /** Python's `sub in s` on strings. */
  predicate Contains(s: string, sub: string)
    decreases |s|
  {
    sub <= s || (|s| > 0 && Contains(s[1..], sub))
  }

  /** Python's `a <= b` on strings: lexicographic by code point. */
  predicate LexLeq(a: string, b: string)
    decreases |a|
  {
    |a| == 0 || (|b| > 0 && (a[0] < b[0] || (a[0] == b[0] && LexLeq(a[1..], b[1..]))))
  }

  predicate Major(kind: OsteotomyType) {
    kind == PSO || kind == VCR
  }

  /** The T1-slope level test: `level.startswith("T") and level <= "T4"`,
      where <= compares strings, not vertebra numbers. */
  predicate T1SlopeLevel(level: string) {
    StartsWith(level, "T") && LexLeq(level, "T4")
  }

  /** The thoracic levels T1 to T12, in order. */
  const ThoracicLevels: seq<string> :=
    ["T1", "T2", "T3", "T4", "T5", "T6", "T7", "T8", "T9", "T10", "T11", "T12"]

  /** Under string order T1 to T4 pass, T5 to T9 do not, and T10 to T12
      pass again because "T1" sorts before "T4". */
  lemma T1SlopeLevels()
    ensures forall i :: 0 <= i < |ThoracicLevels| ==> (T1SlopeLevel(ThoracicLevels[i]) <==> i < 4 || 9 <= i)
  {
    forall i | 0 <= i < |ThoracicLevels|
      ensures T1SlopeLevel(ThoracicLevels[i]) <==> i < 4 || 9 <= i
    {
      var l := ThoracicLevels[i];
      assert l[0] == 'T' && LexLeq(l, "T4") == LexLeq(l[1..], "4");
      if i >= 9 {
        assert l[1..][0] == '1';
      }
    }
  }

  /** The branch of the if/elif chain of apply_osteotomy_corrections that a
      measurement name takes. */
  datatype Rule = LumbarLordosisRule | T1SlopeRule | CervicalRule | SvaRule | PelvicTiltRule | NoRule

  /** The name tests of the chain, in the order they are made.  Being a
      function, it sends every name to exactly one branch. */
  function RuleFor(name: string): Rule {
    if name == "Lumbar Lordosis" then LumbarLordosisRule
    else if name == "T1 Slope" then T1SlopeRule
    else if Contains(name, "C2") || Contains(name, "C7") then CervicalRule
    else if name == "SVA" then SvaRule
    else if name == "Pelvic Tilt" then PelvicTiltRule
    else NoRule
  }

  /** The body of one branch: what one applied osteotomy adds. */
  function RuleContribution(rule: Rule, o: Osteotomy): real {
    var c := o.expectedCorrection;
    var lumbar := StartsWith(o.level, "L");
    match rule
    case LumbarLordosisRule =>
      if lumbar && Major(o.kind) then c
      else if lumbar && o.kind == SPO then c * 0.8
      else 0.0
    case T1SlopeRule =>
      if T1SlopeLevel(o.level) && Major(o.kind) then c * 0.6 else 0.0
    case CervicalRule =>
      if StartsWith(o.level, "C") && Major(o.kind) then c * 0.7 else 0.0
    case SvaRule =>
      if Major(o.kind) then (if lumbar then -(c * 2.5) else -(c * 1.2))
      else -(c * 1.0)
    case PelvicTiltRule =>
      if lumbar && Major(o.kind) then -(c * 0.4)
      else if lumbar && o.kind == SPO then -(c * 0.2)
      else 0.0
    case NoRule => 0.0
  }

  /** A symmetric PSO at T10 tilts T1 by 18 degrees, one at T8 by nothing. */
  lemma T1SlopeAtT10AndT8()
    ensures RuleContribution(T1SlopeRule, Osteotomy(PSO, "Wedge", "T10", "Symmetric", [], true, 30.0)) == 18.0
    ensures RuleContribution(T1SlopeRule, Osteotomy(PSO, "Wedge", "T8", "Symmetric", [], true, 30.0)) == 0.0
  {
    T1SlopeLevels();
    assert ThoracicLevels[9] == "T10" && ThoracicLevels[7] == "T8";
  }

  /** The osteotomies whose "applied" flag is set, in order. */
  function Applied(os: seq<Osteotomy>): (r: seq<Osteotomy>)
    ensures |r| <= |os|
    ensures forall o :: o in r <==> o in os && o.applied
  {
    if |os| == 0 then []
    else Applied(os[..|os| - 1]) + (if os[|os| - 1].applied then [os[|os| - 1]] else [])
  }

  /** total_correction for a measurement under the given rule, summed in
      list order. */
  function Total(rule: Rule, os: seq<Osteotomy>): real {
    if |os| == 0 then 0.0 else Total(rule, os[..|os| - 1]) + RuleContribution(rule, os[|os| - 1])
  }

  lemma {:induction false} TotalAppend(rule: Rule, a: seq<Osteotomy>, b: seq<Osteotomy>)
    ensures Total(rule, a + b) == Total(rule, a) + Total(rule, b)
    decreases |b|
  {
    if |b| == 0 {
      assert a + b == a;
    } else {
      assert (a + b)[..|a + b| - 1] == a + b[..|b| - 1];
      TotalAppend(rule, a, b[..|b| - 1]);
    }
  }

  /** Taking one osteotomy out of the list. */
  lemma TotalRemove(rule: Rule, s: seq<Osteotomy>, i: int)
    requires 0 <= i < |s|
    ensures Total(rule, s) == Total(rule, s[..i] + s[i + 1..]) + RuleContribution(rule, s[i])
  {
    assert s == s[..i] + ([s[i]] + s[i + 1..]);
    TotalAppend(rule, s[..i], [s[i]] + s[i + 1..]);
    TotalAppend(rule, [s[i]], s[i + 1..]);
    TotalAppend(rule, s[..i], s[i + 1..]);
    assert [s[i]][..0] == [];
  }

  /** The order in which osteotomies were drawn does not matter: the total
      depends only on the multiset of applied osteotomies. */
  lemma {:induction false} TotalPermutation(rule: Rule, a: seq<Osteotomy>, b: seq<Osteotomy>)
    requires multiset(a) == multiset(b)
    ensures Total(rule, a) == Total(rule, b)
    decreases |a|
  {
    if |a| > 0 {
      var last := a[|a| - 1];
      assert last in multiset(b);
      var i :| 0 <= i < |b| && b[i] == last;
      var rest := b[..i] + b[i + 1..];
      RemoveMatching(a, b, i);
      TotalPermutation(rule, a[..|a| - 1], rest);
      TotalRemove(rule, b, i);
    } else {
      assert |b| == 0;
    }
  }

  lemma RuleOfCbva()
    ensures RuleFor(MeasurementNames[0]) == NoRule
  {
    assert "CBVA"[..2] != "C2" && "CBVA"[..2] != "C7" by {
      assert "CBVA"[..2][1] == 'B';
    }
    assert "CBVA"[1..] == "BVA";
    NoCervicalMarker("BVA");
  }

  /** Both cervical names contain "C2", so the SVA test after the cervical
      one never sees "C2\u2013C7 SVA". */
  lemma RuleOfCervical(name: string)
    requires name == MeasurementNames[1] || name == MeasurementNames[2]
    ensures RuleFor(name) == CervicalRule
  {
    assert "C2" <= name;
  }

  lemma RuleOfSacralSlope()
    ensures RuleFor(MeasurementNames[5]) == NoRule
  {
    var name := MeasurementNames[5];
    assert name == "Sacral Slope";
    assert name[0] == 'S';
    NoCervicalMarker(name);
  }

  lemma RuleOfPelvicTilt()
    ensures RuleFor(MeasurementNames[6]) == PelvicTiltRule
  {
    var name := MeasurementNames[6];
    assert name == "Pelvic Tilt";
    assert name[0] == 'P';
    NoCervicalMarker(name);
  }

  lemma RuleOfIncidence()
    ensures RuleFor(MeasurementNames[7]) == NoRule
  {
    NoCervicalMarker("PI (vector)");
  }

  lemma RuleOfSva()
    ensures RuleFor(MeasurementNames[8]) == SvaRule
  {
    NoCervicalMarker("SVA");
  }

  /** Where each of the nine measurement names lands in the chain: the CBVA,
      the sacral slope and the pelvic incidence fall through every test. */
  lemma RuleTable()
    ensures RuleFor(MeasurementNames[0]) == NoRule
    ensures RuleFor(MeasurementNames[1]) == CervicalRule
    ensures RuleFor(MeasurementNames[2]) == CervicalRule
    ensures RuleFor(MeasurementNames[3]) == T1SlopeRule
    ensures RuleFor(MeasurementNames[4]) == LumbarLordosisRule
    ensures RuleFor(MeasurementNames[5]) == NoRule
    ensures RuleFor(MeasurementNames[6]) == PelvicTiltRule
    ensures RuleFor(MeasurementNames[7]) == NoRule
    ensures RuleFor(MeasurementNames[8]) == SvaRule
  {
    RuleOfCbva();
    RuleOfCervical(MeasurementNames[1]);
    RuleOfCervical(MeasurementNames[2]);
    RuleOfSacralSlope();
    RuleOfPelvicTilt();
    RuleOfIncidence();
    RuleOfSva();
  }

  /** Dropping the last element of one list and an equal element of another
      keeps two equal multisets equal. */
  lemma RemoveMatching(a: seq<Osteotomy>, b: seq<Osteotomy>, i: int)
    requires multiset(a) == multiset(b)
    requires |a| > 0 && 0 <= i < |b| && b[i] == a[|a| - 1]
    ensures multiset(a[..|a| - 1]) == multiset(b[..i] + b[i + 1..])
  {
    var last := a[|a| - 1];
    assert a == a[..|a| - 1] + [last];
    assert b == b[..i] + [b[i]] + b[i + 1..];
    assert multiset(a[..|a| - 1]) == multiset(a) - multiset{last};
    assert multiset(b[..i] + b[i + 1..]) == multiset(b) - multiset{last};
  }

  /** The sign each rule gives a non-negative expected correction. */
  lemma ContributionSigns(o: Osteotomy)
    requires o.expectedCorrection >= 0.0
    ensures RuleContribution(LumbarLordosisRule, o) >= 0.0
    ensures RuleContribution(SvaRule, o) <= 0.0
    ensures RuleContribution(PelvicTiltRule, o) <= 0.0
  {
  }

  /** With non-negative expected corrections, the applied osteotomies can
      only raise the lumbar lordosis and only lower the SVA and the pelvic
      tilt. */
  lemma {:induction false} TotalSigns(os: seq<Osteotomy>)
    requires forall o :: o in os ==> o.expectedCorrection >= 0.0
    ensures Total(LumbarLordosisRule, os) >= 0.0
    ensures Total(SvaRule, os) <= 0.0
    ensures Total(PelvicTiltRule, os) <= 0.0
    decreases |os|
  {
    if |os| > 0 {
      var init := os[..|os| - 1];
      assert os[|os| - 1] in os;
      ContributionSigns(os[|os| - 1]);
      assert forall o :: o in init ==> o in os;
      TotalSigns(init);
    }
  }

  /** A text without the letter C contains neither "C2" nor "C7". */
  lemma {:induction false} NoCervicalMarker(s: string)
    requires 'C' !in s
    ensures !Contains(s, "C2") && !Contains(s, "C7")
    decreases |s|
  {
    if |s| > 0 {
      assert s[0] != 'C';
      assert forall c :: c in s[1..] ==> c in s;
      NoCervicalMarker(s[1..]);
    }
  }

  lemma PresetsNotCervical(level: string)
    requires level in PresetLevels
    ensures !StartsWith(level, "C")
  {
    var i :| 0 <= i < |PresetLevels| && PresetLevels[i] == level;
    assert PresetLevels[i][0] in "TLS";
  }

  /** No level the combobox offers is cervical, so an osteotomy drawn at a
      preset level never moves the two cervical measurements. */
  lemma CervicalPresetsUnmoved(o: Osteotomy)
    requires o.level in PresetLevels
    ensures RuleContribution(CervicalRule, o) == 0.0
  {
    PresetsNotCervical(o.level);
  }

  /** The worked example: two symmetric lumbar PSOs of 30 degrees add 60
      degrees of lumbar lordosis and take 150 mm off the SVA. */
  lemma TwoLumbarPsos()
    ensures var o := Osteotomy(PSO, "Wedge", "L4", "Symmetric", [], true, ExpectedCorrection(PSO, "Symmetric", 1));
            Total(LumbarLordosisRule, [o, o]) == 60.0 && Total(SvaRule, [o, o]) == -150.0
  {
    var o := Osteotomy(PSO, "Wedge", "L4", "Symmetric", [], true, ExpectedCorrection(PSO, "Symmetric", 1));
    assert o.expectedCorrection == 30.0;
    assert RuleContribution(LumbarLordosisRule, o) == 30.0;
    assert RuleContribution(SvaRule, o) == -75.0;
    assert [o, o][..1] == [o];
    assert [o][..0] == [];
    assert Total(LumbarLordosisRule, [o]) == 30.0;
    assert Total(SvaRule, [o]) == -75.0;
  }

  /** One label of apply_osteotomy_corrections: "--" and unparsable text are
      skipped; a number moves by the total unless the total is 0, a distance
      never below 0.  float("nan") parses; NaN plus anything stays NaN, and
      max(0, nan) is 0. */
  function CorrectedEntry(e: Entry, total: real): (r: Entry)
    ensures e.Unavailable? || e.Garbled? || total == 0.0 ==> r == e
    ensures e.Value? && total != 0.0 && e.unit == Degrees ==> r == Value(e.v + total, Degrees)
    ensures e.Value? && total != 0.0 && e.unit == Millimetres ==>
              r == Value(if e.v + total < 0.0 then 0.0 else e.v + total, Millimetres)
    ensures e.NotANumber? && total != 0.0 && e.nanUnit == Degrees ==> r == e
    ensures e.NotANumber? && total != 0.0 && e.nanUnit == Millimetres ==> r == Value(0.0, Millimetres)
    ensures r.Value? && r.unit == Millimetres && total != 0.0 ==> r.v >= 0.0
  {
    match e
    case Unavailable => e
    case Garbled(_) => e
    case Value(v, unit) =>
      if total == 0.0 then e
      else if unit == Degrees then Value(v + total, Degrees)
      else Value(if v + total < 0.0 then 0.0 else v + total, Millimetres)
    case NotANumber(unit) =>
      if total == 0.0 || unit == Degrees then e else Value(0.0, Millimetres)
  }

  /** apply_osteotomy_corrections on a whole measurement dict. */
  function CorrectedLabels(labels: seq<Label>, os: seq<Osteotomy>): (r: seq<Label>)
    ensures |r| == |labels|
    ensures forall i :: 0 <= i < |r| ==> r[i].name == labels[i].name
    ensures forall i :: 0 <= i < |r| ==> r[i].entry == CorrectedEntry(labels[i].entry, Total(RuleFor(labels[i].name), Applied(os)))
  {
    seq(|labels|, i requires 0 <= i < |labels| =>
      Label(labels[i].name, CorrectedEntry(labels[i].entry, Total(RuleFor(labels[i].name), Applied(os)))))
  }

  /** Without an applied osteotomy nothing changes. */
  lemma NothingAppliedNothingChanges(labels: seq<Label>, os: seq<Osteotomy>)
    requires forall o :: o in os ==> !o.applied
    ensures CorrectedLabels(labels, os) == labels
  {
    AppliedNone(os);
  }

  /** A correction pass over a measurement dict keeps its parameter names,
      and the angles no rule touches keep their values. */
  lemma CorrectionKeepsUntouched(labels: seq<Label>, os: seq<Osteotomy>, i: int)
    requires 0 <= i < |labels|
    requires labels[i].name in {MeasurementNames[0], MeasurementNames[5], MeasurementNames[7]}
    ensures CorrectedLabels(labels, os)[i] == labels[i]
  {
    RuleTable();
    TotalZero(Applied(os));
  }

  /** A name that falls through the chain collects nothing. */
  lemma {:induction false} TotalZero(os: seq<Osteotomy>)
    ensures Total(NoRule, os) == 0.0
    decreases |os|
  {
    if |os| > 0 {
      TotalZero(os[..|os| - 1]);
    }
  }

  /** Redrawing the same osteotomies in another order gives the same
      corrected dict. */
  lemma CorrectionOrderFree(labels: seq<Label>, a: seq<Osteotomy>, b: seq<Osteotomy>)
    requires multiset(a) == multiset(b)
    ensures CorrectedLabels(labels, a) == CorrectedLabels(labels, b)
  {
    AppliedCount(a);
    AppliedCount(b);
    assert multiset(Applied(a)) == multiset(Applied(b));
    forall i | 0 <= i < |labels|
      ensures Total(RuleFor(labels[i].name), Applied(a)) == Total(RuleFor(labels[i].name), Applied(b))
    {
      TotalPermutation(RuleFor(labels[i].name), Applied(a), Applied(b));
    }
  }

  /** The filter keeps every copy of an applied osteotomy and no copy of the
      others. */
  lemma {:induction false} AppliedCount(os: seq<Osteotomy>)
    ensures forall o :: multiset(Applied(os))[o] == if o.applied then multiset(os)[o] else 0
    decreases |os|
  {
    if |os| > 0 {
      var init := os[..|os| - 1];
      AppliedCount(init);
      assert os == init + [os[|os| - 1]];
    }
  }

  lemma {:induction false} AppliedNone(os: seq<Osteotomy>)
    requires forall o :: o in os ==> !o.applied
    ensures Applied(os) == []
    decreases |os|
  {
    if |os| > 0 {
      assert os[|os| - 1] in os;
      assert forall o :: o in os[..|os| - 1] ==> o in os;
      AppliedNone(os[..|os| - 1]);
    }
  }

  /** apply_osteotomy_corrections as the loops it is written with: collect
      the applied osteotomies, then for every label that does not read "--"
      add up the contributions of its rule and rewrite the label. */
  method ApplyCorrections(labels: seq<Label>, os: seq<Osteotomy>) returns (r: seq<Label>)
    ensures r == CorrectedLabels(labels, os)
  {
    var applied := FilterApplied(os);
    if |applied| == 0 {
      AppliedEmpty(labels, os);
      return labels;
    }
    r := labels;
    for i := 0 to |labels|
      invariant |r| == |labels|
      invariant forall j :: 0 <= j < i ==> r[j] == CorrectedLabels(labels, os)[j]
      invariant forall j :: i <= j < |labels| ==> r[j] == labels[j]
    {
      if r[i].entry.Unavailable? {
        continue;
      }
      var total := SumRule(RuleFor(r[i].name), applied);
      r := r[i := Label(r[i].name, CorrectedEntry(r[i].entry, total))];
    }
  }

  /** The list comprehension of apply_osteotomy_corrections that keeps the
      applied osteotomies, in order. */
  method FilterApplied(os: seq<Osteotomy>) returns (applied: seq<Osteotomy>)
    ensures applied == Applied(os)
  {
    applied := [];
    for k := 0 to |os|
      invariant applied == Applied(os[..k])
    {
      assert os[..k + 1][..k] == os[..k];
      if os[k].applied {
        applied := applied + [os[k]];
      }
    }
    assert os[..|os|] == os;
  }

  /** The inner loop of apply_osteotomy_corrections: the running total of
      one rule over the applied osteotomies. */
  method SumRule(rule: Rule, applied: seq<Osteotomy>) returns (total: real)
    ensures total == Total(rule, applied)
  {
    total := 0.0;
    for k := 0 to |applied|
      invariant total == Total(rule, applied[..k])
    {
      assert applied[..k + 1][..k] == applied[..k];
      total := total + RuleContribution(rule, applied[k]);
    }
    assert applied[..|applied|] == applied;
  }

  /** The early return of apply_osteotomy_corrections agrees with the rules:
      with no applied osteotomy every total is 0. */
  lemma AppliedEmpty(labels: seq<Label>, os: seq<Osteotomy>)
    requires Applied(os) == []
    ensures CorrectedLabels(labels, os) == labels
  {
  }
}
