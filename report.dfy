/** The text copy_to_clipboard puts on the clipboard, in the three
    versions: one "name: text" line per label that does not read "--"
    (FirstDraft.py, SFP-Ver0.1.py), and in SFP-Ver0.2.py a baseline
    header plus, once a simulation has been accepted, a second block for
    the simulated dict. */
module Report {
  import opened Engine

  /** The label text of an entry.  render stands for the ":.2f" format,
      which is left uninterpreted; the unit suffixes are those
      update_measurements writes. */
  function Show(e: Entry, render: real -> string): string {
    match e
    case Unavailable => "--"
    case Value(v, unit) => render(v) + Suffix(unit)
    case NotANumber(unit) => "nan" + Suffix(unit)
    case Garbled(text) => text
  }

  function Suffix(unit: Unit): string {
    if unit == Degrees then "°" else " mm"
  }

  /** A label reads "--" exactly when no value was computed for it, or when
      it holds that very text unparsed: a rendered number always ends in its
      unit, whatever the number renders as. */
  lemma ShowBlankIff(e: Entry, render: real -> string)
    ensures Show(e, render) == "--" <==> Blank(e)
  {
    match e
    case Value(v, unit) =>
      var s := Show(e, render);
      assert s[|s| - 1] == Suffix(unit)[|Suffix(unit)| - 1];
    case NotANumber(unit) =>
      var s := Show(e, render);
      assert s[|s| - 1] == Suffix(unit)[|Suffix(unit)| - 1];
    case Unavailable =>
    case Garbled(_) =>
  }

  /** The line f"{name}: {text}\n" of a row. */
  function Row(l: Label, render: real -> string): string {
    l.name + ": " + Show(l.entry, render) + "\n"
  }

  /** The entries whose label reads "--" (see ShowBlankIff). */
  predicate Blank(e: Entry) {
    e.Unavailable? || e == Garbled("--")
  }

  /** One row's share of the text: nothing for a "--" label. */
  function Line(l: Label, render: real -> string): string {
    if Blank(l.entry) then "" else Row(l, render)
  }

  /** The loop of copy_to_clipboard over one measurement dict, in dict order. */
  function ReportText(labels: seq<Label>, render: real -> string): string {
    if |labels| == 0 then ""
    else ReportText(labels[..|labels| - 1], render) + Line(labels[|labels| - 1], render)
  }

  /** The rows that make it into the text, in order. */
  function Shown(labels: seq<Label>, render: real -> string): (r: seq<Label>)
    ensures |r| <= |labels|
    ensures forall l :: l in r <==> l in labels && !Blank(l.entry)
  {
    if |labels| == 0 then []
    else
      var last := labels[|labels| - 1];
      Shown(labels[..|labels| - 1], render) + (if !Blank(last.entry) then [last] else [])
  }

  /** The lines of the given rows, none skipped. */
  function AllLines(labels: seq<Label>, render: real -> string): string {
    if |labels| == 0 then ""
    else
      AllLines(labels[..|labels| - 1], render) + Row(labels[|labels| - 1], render)
  }

  /** The clipboard text is exactly one "name: text" line for each row
      whose text is not "--", in dict order. */
  lemma {:induction false} ReportIsShownLines(labels: seq<Label>, render: real -> string)
    ensures ReportText(labels, render) == AllLines(Shown(labels, render), render)
    decreases |labels|
  {
    if |labels| > 0 {
      var init := labels[..|labels| - 1];
      var last := labels[|labels| - 1];
      ReportIsShownLines(init, render);
      if !Blank(last.entry) {
        var shown := Shown(init, render) + [last];
        assert shown[..|shown| - 1] == Shown(init, render);
        assert AllLines(shown, render) == AllLines(Shown(init, render), render) + Row(last, render);
      } else {
        assert Shown(labels, render) == Shown(init, render);
      }
    }
  }

  lemma {:induction false} ReportAppend(a: seq<Label>, b: seq<Label>, render: real -> string)
    ensures ReportText(a + b, render) == ReportText(a, render) + ReportText(b, render)
    decreases |b|
  {
    if |b| == 0 {
      assert a + b == a;
    } else {
      var init := b[..|b| - 1];
      var last := Line(b[|b| - 1], render);
      assert (a + b)[..|a + b| - 1] == a + init;
      assert (a + b)[|a + b| - 1] == b[|b| - 1];
      ReportAppend(a, init, render);
      AppendAssoc(ReportText(a, render), ReportText(init, render), last);
    }
  }

  lemma AppendAssoc(x: string, y: string, z: string)
    ensures (x + y) + z == x + (y + z)
  {
  }

  /** A dict with nothing measured copies as the empty text. */
  lemma {:induction false} ReportOfBlank(labels: seq<Label>, render: real -> string)
    requires forall i :: 0 <= i < |labels| ==> labels[i].entry == Unavailable
    ensures ReportText(labels, render) == ""
    decreases |labels|
  {
    if |labels| > 0 {
      ReportOfBlank(labels[..|labels| - 1], render);
    }
  }

  /** Two dicts that differ only in the rows that read "--" copy alike. */
  lemma {:induction false} ReportIgnoresBlankRows(a: seq<Label>, b: seq<Label>, render: real -> string)
    requires Shown(a, render) == Shown(b, render)
    ensures ReportText(a, render) == ReportText(b, render)
  {
    ReportIsShownLines(a, render);
    ReportIsShownLines(b, render);
  }

  const BaselineHeader: string := "BASELINE MEASUREMENTS:\n"
  const SimulatedHeader: string := "\nSIMULATED MEASUREMENTS:\n"

  /** copy_to_clipboard of SFP-Ver0.2.py. */
  function SessionReport(baseline: seq<Label>, simulated: seq<Label>, isSimulated: bool, render: real -> string): string {
    BaselineHeader + ReportText(baseline, render)
      + (if isSimulated then SimulatedHeader + ReportText(simulated, render) else "")
  }

  /** Until a simulation is accepted the simulated dict does not reach the
      clipboard, and the text is the older versions' text under a header;
      afterwards the baseline block comes first, unchanged. */
  lemma SessionReportBlocks(baseline: seq<Label>, simulated: seq<Label>, isSimulated: bool, render: real -> string)
    ensures !isSimulated ==> SessionReport(baseline, simulated, false, render) == BaselineHeader + ReportText(baseline, render)
    ensures BaselineHeader + ReportText(baseline, render) <= SessionReport(baseline, simulated, isSimulated, render)
    ensures isSimulated ==>
              SessionReport(baseline, simulated, true, render)[|BaselineHeader + ReportText(baseline, render)|..]
              == SimulatedHeader + ReportText(simulated, render)
  {
  }

  /** A fresh session, nothing measured and nothing accepted, copies only
      the header. */
  lemma FreshSessionReport(render: real -> string)
    ensures SessionReport(BlankLabels(), BlankLabels(), false, render) == BaselineHeader
  {
    ReportOfBlank(BlankLabels(), render);
  }

  /** The loop of copy_to_clipboard: append one line per label that does
      not read "--", in dict order, to the text built so far. */
  method AppendLines(text: string, labels: seq<Label>, render: real -> string) returns (out: string)
    ensures out == text + ReportText(labels, render)
  {
    out := text;
    for i := 0 to |labels|
      invariant out == text + ReportText(labels[..i], render)
    {
      assert labels[..i + 1][..i] == labels[..i];
      if Show(labels[i].entry, render) != "--" {
        out := out + Row(labels[i], render);
      }
      ShowBlankIff(labels[i].entry, render);
      AppendAssoc(text, ReportText(labels[..i], render), Line(labels[i], render));
    }
    assert labels[..|labels|] == labels;
  }
}
