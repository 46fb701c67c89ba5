/** The planning session of SpineForgePlanner: the image and its calibration,
    the landmark store filled by clicks, the two measurement dicts, the
    osteotomy list with its applied flags and the simulation switch, and the
    implant lists with the rod built from them.  The class Session keeps these
    as fields that its methods update in place; each method's frame names
    the fields it may change and its postcondition states their new values. */
module Planner {
  import opened Engine
  import opened Corrections
  import opened Report

  datatype Option<T> = None | Some(value: T)

  /** A loaded picture; only its size matters to the session logic. */
  datatype Image = Image(width: int, height: int)

  /** What reading a DICOM file yields: the pixel image and, when the
      dataset has a PixelSpacing attribute, its two values. */
  datatype Dicom = Dicom(image: Image, spacing: Option<Spacing>)

  datatype Screw = Screw(head: Point, tip: Point, diameter: real, length: int, level: string)
  datatype Cage = Cage(corners: seq<Point>, width: real, length: real, height: real, lordosis: real, level: string)

  /** rod_line: the connected screw heads, the side and diameter text. */
  datatype Rod = Rod(points: seq<Point>, side: string, diameter: string)

  /** The two values delete_implant's type argument takes. */
  datatype ImplantKind = ScrewImplant | CageImplant

  /** The osteotomy controls of the sidebar as they read when a click or
      a button press arrives. */
  datatype Controls = Controls(kind: OsteotomyType, technique: string, level: string, side: string, numLevels: int)

  const DefaultSpacing: Spacing := Spacing(1.0, 1.0)
  const InitialZoom: real := 0.1

  /** Python's int() on a float: truncation toward zero. */
  function Trunc(r: real): (n: int)
    ensures 0.0 <= r ==> n as real <= r < n as real + 1.0
    ensures r < 0.0 ==> n as real - 1.0 < r <= n as real
  {
    if r >= 0.0 then r.Floor else -((-r).Floor)
  }

  /** A canvas coordinate mapped back into the image: int((c - offset) / zoom). */
  function ImageCoordinate(c: int, offset: real, zoom: real): int
    requires zoom > 0.0
  {
    Trunc((c as real - offset) / zoom)
  }

  /** A click maps into a row or column 0 <= x < size exactly when it falls
      less than one zoom step before the image's edge or inside it: the
      truncation sends the sliver (-zoom, 0) onto column 0. */
  lemma ImageCoordinateInRange(c: int, offset: real, zoom: real, size: int)
    requires zoom > 0.0 && size >= 1
    ensures 0 <= ImageCoordinate(c, offset, zoom) < size
            <==> -zoom < c as real - offset < size as real * zoom
  {
    var d := c as real - offset;
    var r := d / zoom;
    assert r * zoom == d;
    var n := Trunc(r);
    if 0 <= n < size {
      assert -1.0 < r;
      assert r < size as real;
      ScaleStrict(-1.0, r, zoom);
      ScaleStrict(r, size as real, zoom);
    } else {
      if -zoom < d < size as real * zoom {
        ScaleStrict(-1.0, r, zoom);
        ScaleStrict(r, size as real, zoom);
        assert false;
      }
    }
  }

  /** Multiplying by a positive number keeps a strict order, both ways. */
  lemma ScaleStrict(a: real, b: real, k: real)
    requires k > 0.0
    ensures a < b <==> a * k < b * k
  {
    if a < b {
      assert (b - a) * k > 0.0;
    }
    if a * k < b * k {
      assert (b - a) * k > 0.0;
    }
  }

  /** How many points an osteotomy of the given technique is drawn with. */
  function MaxPoints(technique: string): int {
    if technique == "Open" then 2 else 4
  }

  /** The descriptor draw_complete_osteotomy appends: the drawn points, not
      yet applied, with the correction the controls give. */
  function NewOsteotomy(points: seq<Point>, c: Controls): Osteotomy {
    Osteotomy(c.kind, c.technique, c.level, c.side, points, false, ExpectedCorrection(c.kind, c.side, c.numLevels))
  }

  /** Every descriptor with its flag set, nothing else about it changed. */
  function AllApplied(os: seq<Osteotomy>): (r: seq<Osteotomy>)
    ensures |r| == |os|
    ensures forall i :: 0 <= i < |r| ==> r[i] == os[i].(applied := true)
  {
    seq(|os|, i requires 0 <= i < |os| => os[i].(applied := true))
  }

  predicate AnyPending(os: seq<Osteotomy>) {
    exists i :: 0 <= i < |os| && !os[i].applied
  }

  /** The Wedge warp of apply_osteotomy divides by max_x - min_x at every
      image column between the two; with three or more points in one column
      that lies inside an image of this width, that division is by zero and
      raises. */
  predicate WarpRaises(o: Osteotomy, width: int) {
    && o.technique == "Wedge"
    && |o.points| >= 3
    && (forall j :: 0 <= j < |o.points| ==> o.points[j].x == o.points[0].x)
    && 0 <= o.points[0].x < width
  }

  /** A descriptor the loop of apply_osteotomy stops at: still pending, and
      its warp raises. */
  predicate Stops(o: Osteotomy, width: int) {
    !o.applied && WarpRaises(o, width)
  }

  /** Where the loop of apply_osteotomy stops: the first descriptor it stops
      at, or the length of the list when it gets through. */
  function FirstFailure(os: seq<Osteotomy>, width: int): (n: nat)
    ensures n <= |os|
    ensures forall j :: 0 <= j < n ==> !Stops(os[j], width)
    ensures n < |os| ==> Stops(os[n], width)
  {
    if |os| == 0 then 0
    else if Stops(os[0], width) then 0
    else 1 + FirstFailure(os[1..], width)
  }

  /** Any index with no stop before it and a stop at it (or the end) is the
      first failure. */
  lemma FirstFailureAt(os: seq<Osteotomy>, width: int, n: nat)
    requires n <= |os|
    requires forall j :: 0 <= j < n ==> !Stops(os[j], width)
    requires n < |os| ==> Stops(os[n], width)
    ensures FirstFailure(os, width) == n
  {
  }

  /** The list after the loop of apply_osteotomy has passed its first n
      descriptors: those marked applied, the rest as they were. */
  function MarkedUpTo(os: seq<Osteotomy>, n: nat): (r: seq<Osteotomy>)
    requires n <= |os|
    ensures |r| == |os|
  {
    AllApplied(os[..n]) + os[n..]
  }

  /** One more step of the loop: descriptor i gets its flag, and the prefix
      has a pending one exactly when it had one before or i was pending. */
  lemma MarkNext(os: seq<Osteotomy>, i: nat)
    requires i < |os|
    ensures MarkedUpTo(os, i)[i := os[i].(applied := true)] == MarkedUpTo(os, i + 1)
    ensures os[i].applied ==> MarkedUpTo(os, i + 1) == MarkedUpTo(os, i)
    ensures AnyPending(os[..i + 1]) <==> AnyPending(os[..i]) || !os[i].applied
  {
    var a, b := MarkedUpTo(os, i), MarkedUpTo(os, i + 1);
    assert a[i := os[i].(applied := true)] == b;
    if os[i].applied {
      assert os[i].(applied := true) == os[i];
      assert b == a;
    }
    if AnyPending(os[..i]) {
      var j :| 0 <= j < i && !os[..i][j].applied;
      assert !os[..i + 1][j].applied;
    }
    if AnyPending(os[..i + 1]) && os[i].applied {
      var j :| 0 <= j < i + 1 && !os[..i + 1][j].applied;
      assert !os[..i][j].applied;
    }
    if !os[i].applied {
      assert !os[..i + 1][i].applied;
    }
  }

  /** The loop of apply_osteotomy over the descriptor list: skip the applied
      ones, stop at a pending one whose warp raises, mark the others applied. */
  method MarkInOrder(os: seq<Osteotomy>, width: int) returns (lines: seq<Osteotomy>, appliedAny: bool, raised: bool)
    ensures var n := FirstFailure(os, width);
            && lines == MarkedUpTo(os, n)
            && (raised <==> n < |os|)
            && (appliedAny <==> AnyPending(os[..n]))
  {
    appliedAny, raised := false, false;
    lines := os;
    var i := 0;
    while i < |lines|
      invariant i <= |os|
      invariant lines == MarkedUpTo(os, i)
      invariant forall j :: 0 <= j < i ==> !Stops(os[j], width)
      invariant appliedAny == AnyPending(os[..i])
    {
      MarkNext(os, i);
      if !lines[i].applied {
        if WarpRaises(lines[i], width) {
          raised := true;
          break;
        }
        lines := lines[i := lines[i].(applied := true)];
        appliedAny := true;
      }
      i := i + 1;
    }
    FirstFailureAt(os, width, i);
  }

  /** A raising Wedge blocks every later apply: after a run that stopped at
      it, everything before it is applied and it is still pending, so the
      next run stops at the same descriptor. */
  lemma FailureBlocks(os: seq<Osteotomy>, width: int)
    requires FirstFailure(os, width) < |os|
    ensures var n := FirstFailure(os, width);
            FirstFailure(MarkedUpTo(os, n), width) == n
  {
    var n := FirstFailure(os, width);
    var after := MarkedUpTo(os, n);
    assert after[n] == os[n];
    FirstFailureAt(after, width, n);
  }

  /** Once marked, the list is settled: nothing is pending, marking again
      changes nothing, and every descriptor is applied. */
  lemma AllAppliedSettles(os: seq<Osteotomy>)
    ensures !AnyPending(AllApplied(os))
    ensures AllApplied(AllApplied(os)) == AllApplied(os)
    ensures forall o :: o in AllApplied(os) ==> o.applied
    ensures Applied(AllApplied(os)) == AllApplied(os)
  {
    AppliedAll(AllApplied(os));
  }

  /** The filter of apply_osteotomy_corrections keeps a list that is
      applied throughout. */
  lemma {:induction false} AppliedAll(os: seq<Osteotomy>)
    requires forall i :: 0 <= i < |os| ==> os[i].applied
    ensures Applied(os) == os
    decreases |os|
  {
    if |os| > 0 {
      var init, last := os[..|os| - 1], os[|os| - 1];
      AppliedAll(init);
      calc {
        Applied(os);
        Applied(init) + [last];
        init + [last];
        os;
      }
    }
  }

  /** Every label of a dict set back to "--". */
  function Blanked(labels: seq<Label>): (r: seq<Label>)
    ensures |r| == |labels|
    ensures forall i :: 0 <= i < |r| ==> r[i] == Label(labels[i].name, Unavailable)
  {
    seq(|labels|, i requires 0 <= i < |labels| => Label(labels[i].name, Unavailable))
  }

  /** Blanking a well-named dict gives the dict __init__ builds. */
  lemma BlankedWellNamed(labels: seq<Label>)
    requires WellNamed(labels)
    ensures Blanked(labels) == BlankLabels()
  {
  }

  predicate SortedByY(ps: seq<Point>) {
    forall i, j :: 0 <= i < j < |ps| ==> ps[i].y <= ps[j].y
  }

  /** Insert p behind every point whose y is not above its own. */
  function InsertByY(sorted: seq<Point>, p: Point): seq<Point> {
    if |sorted| == 0 || sorted[|sorted| - 1].y <= p.y then sorted + [p]
    else InsertByY(sorted[..|sorted| - 1], p) + [sorted[|sorted| - 1]]
  }

  /** The stable sort by y of list.sort(key=lambda x: x[0][1]). */
  function SortByY(ps: seq<Point>): seq<Point> {
    if |ps| == 0 then [] else InsertByY(SortByY(ps[..|ps| - 1]), ps[|ps| - 1])
  }

  lemma {:induction false} InsertByYSorted(sorted: seq<Point>, p: Point)
    requires SortedByY(sorted)
    ensures SortedByY(InsertByY(sorted, p))
    ensures multiset(InsertByY(sorted, p)) == multiset(sorted) + multiset{p}
    decreases |sorted|
  {
    if |sorted| > 0 && sorted[|sorted| - 1].y > p.y {
      var init := sorted[..|sorted| - 1];
      var last := sorted[|sorted| - 1];
      assert sorted == init + [last];
      InsertByYSorted(init, p);
      var ins := InsertByY(init, p);
      BelowLast(sorted, p, ins);
      AppendHigher(ins, last);
    }
  }

  /** Every point of init with p inserted lies no higher than sorted's last. */
  lemma BelowLast(sorted: seq<Point>, p: Point, ins: seq<Point>)
    requires SortedByY(sorted) && |sorted| > 0 && sorted[|sorted| - 1].y > p.y
    requires multiset(ins) == multiset(sorted[..|sorted| - 1]) + multiset{p}
    ensures forall q :: q in ins ==> q.y <= sorted[|sorted| - 1].y
  {
    forall q | q in ins
      ensures q.y <= sorted[|sorted| - 1].y
    {
      assert q in multiset(ins);
      if q != p {
        assert q in multiset(sorted[..|sorted| - 1]);
        var k :| 0 <= k < |sorted| - 1 && sorted[..|sorted| - 1][k] == q;
        assert sorted[k] == q;
      }
    }
  }

  lemma AppendHigher(ins: seq<Point>, last: Point)
    requires SortedByY(ins)
    requires forall q :: q in ins ==> q.y <= last.y
    ensures SortedByY(ins + [last])
  {
    var r := ins + [last];
    forall i, j | 0 <= i < j < |r|
      ensures r[i].y <= r[j].y
    {
      if j == |r| - 1 {
        assert r[i] in ins;
      }
    }
  }

  /** The rod points are the screw heads, rearranged, in non-decreasing y. */
  lemma {:induction false} SortByYCorrect(ps: seq<Point>)
    ensures SortedByY(SortByY(ps))
    ensures multiset(SortByY(ps)) == multiset(ps)
    decreases |ps|
  {
    if |ps| > 0 {
      SortByYCorrect(ps[..|ps| - 1]);
      InsertByYSorted(SortByY(ps[..|ps| - 1]), ps[|ps| - 1]);
      assert ps == ps[..|ps| - 1] + [ps[|ps| - 1]];
    }
  }

  function Heads(screws: seq<Screw>): (r: seq<Point>)
    ensures |r| == |screws|
    ensures forall i :: 0 <= i < |r| ==> r[i] == screws[i].head
  {
    seq(|screws|, i requires 0 <= i < |screws| => screws[i].head)
  }

  /** The session as a mutable object, one field per piece of state. */
  class Session {
    /** The maths library the measurements are computed with. */
    const trig: Trig
    var image: Option<Image>
    var originalImage: Option<Image>
    var simulatedImage: Option<Image>
    var zoom: real
    var offset: (real, real)
    var pixelSpacing: Spacing
    var landmarks: Landmarks
    var currentLandmark: Option<string>
    var labelOffsets: map<string, (real, real)>
    var labelAnchors: map<string, (real, real)>
    var osteotomyPoints: seq<Point>
    /** current_osteotomy == "drawing" */
    var drawing: bool
    var osteotomyLines: seq<Osteotomy>
    var isSimulated: bool
    var measurementLabels: seq<Label>
    var simulatedMeasurements: seq<Label>
    var screws: seq<Screw>
    var cages: seq<Cage>
    var rod: Option<Rod>

    /** What every operation keeps: a positive zoom, both dicts holding the
        nine names in order, and a displayed or simulated image only once an
        original exists to restore. */
    ghost predicate Valid()
      reads this
    {
      && zoom > 0.0
      && WellNamed(measurementLabels)
      && WellNamed(simulatedMeasurements)
      && (image.Some? ==> originalImage.Some?)
      && (simulatedImage.Some? ==> originalImage.Some?)
    }

    /** The nine values as the current landmarks and spacing give them. */
    function Current(): (r: seq<Label>)
      reads this
      ensures WellNamed(r)
    {
      Labelled(Snapshot(landmarks, pixelSpacing, trig))
    }

    /** `if self.current_landmark_name:` -- a selection that is not the empty name. */
    predicate Selecting()
      reads this
    {
      currentLandmark.Some? && currentLandmark.value != ""
    }

    /** The image pixel a canvas click lands on. */
    function ClickedPixel(cx: int, cy: int): Point
      reads this
      requires zoom > 0.0
    {
      Point(ImageCoordinate(cx, offset.0, zoom), ImageCoordinate(cy, offset.1, zoom))
    }

    predicate InsideImage(p: Point)
      reads this
    {
      image.Some? && 0 <= p.x < image.value.width && 0 <= p.y < image.value.height
    }

    constructor(t: Trig)
      ensures Valid() && trig == t
      ensures image.None? && originalImage.None? && simulatedImage.None?
      ensures zoom == InitialZoom && offset == (0.0, 0.0) && pixelSpacing == DefaultSpacing
      ensures landmarks == map[] && currentLandmark.None? && labelOffsets == map[] && labelAnchors == map[]
      ensures osteotomyPoints == [] && !drawing && osteotomyLines == [] && !isSimulated
      ensures measurementLabels == BlankLabels() && simulatedMeasurements == BlankLabels()
      ensures screws == [] && cages == [] && rod.None?
    {
      trig := t;
      image := None;
      originalImage := None;
      simulatedImage := None;
      zoom := InitialZoom;
      offset := (0.0, 0.0);
      pixelSpacing := DefaultSpacing;
      landmarks := map[];
      currentLandmark := None;
      labelOffsets := map[];
      labelAnchors := map[];
      osteotomyPoints := [];
      drawing := false;
      osteotomyLines := [];
      isSimulated := false;
      measurementLabels := BlankLabels();
      simulatedMeasurements := BlankLabels();
      screws := [];
      cages := [];
      rod := None;
    }

    /** set_current_landmark. */
    method SetCurrentLandmark(name: string)
      modifies this`currentLandmark
      ensures currentLandmark == Some(name)
    {
      currentLandmark := Some(name);
    }

    /** update_measurements: recompute the nine values into the baseline
        dict, or into the simulated dict, where the osteotomy corrections
        are applied only once a simulation has been accepted. */
    method UpdateMeasurements(simulated: bool)
      requires Valid()
      modifies this`measurementLabels, this`simulatedMeasurements
      ensures Valid()
      ensures !simulated ==> measurementLabels == Current() && simulatedMeasurements == old(simulatedMeasurements)
      ensures simulated ==> measurementLabels == old(measurementLabels)
      ensures simulated && isSimulated ==> simulatedMeasurements == CorrectedLabels(Current(), osteotomyLines)
      ensures simulated && !isSimulated ==> simulatedMeasurements == Current()
    {
      var labels := Labelled(Snapshot(landmarks, pixelSpacing, trig));
      if simulated {
        if isSimulated {
          labels := ApplyCorrections(labels, osteotomyLines);
        }
        simulatedMeasurements := labels;
      } else {
        measurementLabels := labels;
      }
    }

    /** load_dicom: a cancelled dialog (None) changes nothing; otherwise the
        new image becomes both the displayed and the original image, the
        spacing comes from the file or defaults to 1 mm, the view, every
        landmark and every label position is reset, and the baseline dict
        is recomputed -- to nine "--", there being no landmark left. */
    method LoadDicom(file: Option<Dicom>)
      requires Valid()
      modifies this`image, this`originalImage, this`pixelSpacing, this`zoom, this`offset,
               this`landmarks, this`labelOffsets, this`labelAnchors, this`measurementLabels,
               this`simulatedMeasurements
      ensures Valid()
      ensures file.None? ==> unchanged(this)
      ensures simulatedMeasurements == old(simulatedMeasurements)
      ensures file.Some? ==> image == originalImage == Some(file.value.image)
      ensures file.Some? ==> pixelSpacing == (if file.value.spacing.Some? then file.value.spacing.value else DefaultSpacing)
      ensures file.Some? ==> zoom == InitialZoom && offset == (0.0, 0.0)
      ensures file.Some? ==> landmarks == map[] && labelOffsets == map[] && labelAnchors == map[]
      ensures file.Some? ==> measurementLabels == BlankLabels()
    {
      if file.None? {
        return;
      }
      Reload(file.value);
      EmptySnapshotIsBlank(pixelSpacing, trig);
      UpdateMeasurements(false);
    }

    /** The state reset of load_dicom before the measurements are recomputed. */
    method Reload(d: Dicom)
      requires Valid()
      modifies this`image, this`originalImage, this`pixelSpacing, this`zoom, this`offset,
               this`landmarks, this`labelOffsets, this`labelAnchors
      ensures Valid()
      ensures image == originalImage == Some(d.image)
      ensures pixelSpacing == (if d.spacing.Some? then d.spacing.value else DefaultSpacing)
      ensures zoom == InitialZoom && offset == (0.0, 0.0)
      ensures landmarks == map[] && labelOffsets == map[] && labelAnchors == map[]
    {
      originalImage := Some(d.image);
      image := originalImage;
      if d.spacing.Some? {
        pixelSpacing := d.spacing.value;
      } else {
        pixelSpacing := DefaultSpacing;
      }
      zoom := InitialZoom;
      offset := (0.0, 0.0);
      landmarks := map[];
      labelOffsets := map[];
      labelAnchors := map[];
    }

    /** draw_complete_osteotomy: the drawn points become a new, unapplied
        osteotomy; the drawing is finished. */
    method DrawCompleteOsteotomy(c: Controls)
      modifies this`osteotomyLines, this`osteotomyPoints, this`drawing
      ensures osteotomyLines == old(osteotomyLines) + [NewOsteotomy(old(osteotomyPoints), c)]
      ensures osteotomyPoints == [] && !drawing
    {
      var o := NewOsteotomy(osteotomyPoints, c);
      osteotomyLines := osteotomyLines + [o];
      osteotomyPoints := [];
      drawing := false;
    }

    /** The landmark branch of on_click: a click that maps inside a loaded
        image places the selected landmark there, overwriting any earlier
        point of that name, clears the selection and recomputes the
        baseline dict; any other click changes nothing. */
    method PlaceLandmark(p: Point)
      requires Valid() && currentLandmark.Some?
      modifies this`landmarks, this`currentLandmark, this`measurementLabels, this`simulatedMeasurements
      ensures Valid()
      ensures old(InsideImage(p)) ==> landmarks == old(landmarks)[old(currentLandmark.value) := p]
      ensures old(InsideImage(p)) ==> currentLandmark.None? && measurementLabels == Current()
      ensures old(InsideImage(p)) ==> simulatedMeasurements == old(simulatedMeasurements)
      ensures !old(InsideImage(p)) ==> unchanged(this)
    {
      if image.Some? && 0 <= p.x < image.value.width && 0 <= p.y < image.value.height {
        landmarks := landmarks[currentLandmark.value := p];
        currentLandmark := None;
        UpdateMeasurements(false);
      }
    }

    /** The drawing branch of on_click: add the point, and complete the
        osteotomy once it has the technique's number of points. */
    method AddOsteotomyPoint(p: Point, c: Controls)
      modifies this`osteotomyPoints, this`osteotomyLines, this`drawing
      ensures var points := old(osteotomyPoints) + [p];
              if |points| == MaxPoints(c.technique) then
                osteotomyLines == old(osteotomyLines) + [NewOsteotomy(points, c)] && osteotomyPoints == [] && !drawing
              else
                osteotomyLines == old(osteotomyLines) && osteotomyPoints == points && drawing == old(drawing)
    {
      osteotomyPoints := osteotomyPoints + [p];
      if |osteotomyPoints| == MaxPoints(c.technique) {
        DrawCompleteOsteotomy(c);
      }
    }

    /** on_click: a selected landmark takes precedence; otherwise a click
        while drawing adds an osteotomy point; otherwise nothing happens. */
    method OnClick(cx: int, cy: int, c: Controls)
      requires Valid()
      modifies this`landmarks, this`currentLandmark, this`measurementLabels, this`simulatedMeasurements,
               this`osteotomyPoints, this`osteotomyLines, this`drawing
      ensures Valid()
      ensures old(Selecting()) ==> osteotomyPoints == old(osteotomyPoints) && osteotomyLines == old(osteotomyLines) && drawing == old(drawing)
      ensures old(Selecting()) && old(InsideImage(ClickedPixel(cx, cy))) ==>
                && landmarks == old(landmarks)[old(currentLandmark.value) := old(ClickedPixel(cx, cy))]
                && currentLandmark.None? && measurementLabels == Current()
      ensures old(Selecting()) && !old(InsideImage(ClickedPixel(cx, cy))) ==> unchanged(this)
      ensures !old(Selecting()) ==>
                landmarks == old(landmarks) && currentLandmark == old(currentLandmark) && measurementLabels == old(measurementLabels)
      ensures !old(Selecting()) && old(drawing) ==>
                var points := old(osteotomyPoints) + [old(ClickedPixel(cx, cy))];
                if |points| == MaxPoints(c.technique) then
                  osteotomyLines == old(osteotomyLines) + [NewOsteotomy(points, c)] && osteotomyPoints == [] && !drawing
                else
                  osteotomyLines == old(osteotomyLines) && osteotomyPoints == points && drawing
      ensures !old(Selecting()) && !old(drawing) ==> unchanged(this)
      ensures simulatedMeasurements == old(simulatedMeasurements)
    {
      var p := ClickedPixel(cx, cy);
      if currentLandmark.Some? && currentLandmark.value != "" {
        PlaceLandmark(p);
      } else if drawing {
        AddOsteotomyPoint(p, c);
      }
    }

    /** draw_osteotomy: clear the points, and start drawing for one of the
        three techniques the code knows. */
    method DrawOsteotomy(technique: string)
      modifies this`osteotomyPoints, this`drawing
      ensures osteotomyPoints == []
      ensures drawing == (technique in {"Wedge", "Resect", "Open"} || old(drawing))
    {
      osteotomyPoints := [];
      if technique == "Wedge" || technique == "Resect" || technique == "Open" {
        drawing := true;
      }
    }

    /** apply_osteotomy without the image warping: nothing without an
        osteotomy or an image; otherwise the simulated image starts again
        from the original and the pending osteotomies are marked applied in
        order.  A Wedge whose warp raises (raised) stops the loop there: the
        ones before it stay marked, it and the rest stay pending, and the
        simulated dict is left alone.  When the loop gets through and one
        was pending (appliedAny), the simulated dict is recomputed. */
    method ApplyOsteotomy() returns (appliedAny: bool, raised: bool)
      requires Valid()
      modifies this`simulatedImage, this`osteotomyLines, this`measurementLabels, this`simulatedMeasurements
      ensures Valid()
      ensures measurementLabels == old(measurementLabels)
      ensures |old(osteotomyLines)| == 0 || image.None? ==> unchanged(this) && !appliedAny && !raised
      ensures |old(osteotomyLines)| > 0 && image.Some? ==>
                var n := FirstFailure(old(osteotomyLines), originalImage.value.width);
                && simulatedImage == originalImage
                && osteotomyLines == MarkedUpTo(old(osteotomyLines), n)
                && (raised <==> n < |old(osteotomyLines)|)
                && (appliedAny <==> AnyPending(old(osteotomyLines)[..n]))
      ensures raised || !appliedAny ==> simulatedMeasurements == old(simulatedMeasurements)
      ensures !raised && appliedAny && isSimulated ==> simulatedMeasurements == CorrectedLabels(Current(), osteotomyLines)
      ensures !raised && appliedAny && !isSimulated ==> simulatedMeasurements == Current()
    {
      appliedAny, raised := false, false;
      if |osteotomyLines| == 0 || image.None? {
        return;
      }
      simulatedImage := originalImage;
      var lines;
      lines, appliedAny, raised := MarkInOrder(osteotomyLines, originalImage.value.width);
      osteotomyLines := lines;
      if appliedAny && !raised {
        UpdateMeasurements(true);
      }
    }

    /** accept_simulation: continue on the simulated image, with the
        corrections switched on. */
    method AcceptSimulation()
      requires Valid() && simulatedImage.Some?
      modifies this`image, this`isSimulated
      ensures Valid()
      ensures image == simulatedImage && isSimulated
    {
      image := simulatedImage;
      isSimulated := true;
    }

    /** reset_osteotomy: forget every osteotomy and the simulation, blank the
        simulated dict and show the original image again. */
    method ResetOsteotomy()
      requires Valid()
      modifies this`osteotomyPoints, this`osteotomyLines, this`drawing, this`isSimulated,
               this`simulatedMeasurements, this`image
      ensures Valid()
      ensures osteotomyPoints == [] && osteotomyLines == [] && !drawing && !isSimulated
      ensures simulatedMeasurements == Blanked(old(simulatedMeasurements)) == BlankLabels()
      ensures image == if originalImage.Some? then originalImage else old(image)
    {
      osteotomyPoints := [];
      osteotomyLines := [];
      drawing := false;
      isSimulated := false;
      var blank := simulatedMeasurements;
      for i := 0 to |blank|
        invariant |blank| == |simulatedMeasurements|
        invariant forall j :: 0 <= j < i ==> blank[j] == Label(simulatedMeasurements[j].name, Unavailable)
        invariant forall j :: i <= j < |blank| ==> blank[j] == simulatedMeasurements[j]
      {
        blank := blank[i := Label(blank[i].name, Unavailable)];
      }
      assert blank == Blanked(simulatedMeasurements);
      BlankedWellNamed(simulatedMeasurements);
      simulatedMeasurements := blank;
      if originalImage.Some? {
        image := originalImage;
      }
    }

    /** delete_implant: remove entry index of the chosen list when it
        exists; an index out of range changes nothing. */
    method DeleteImplant(kind: ImplantKind, index: int)
      modifies this`screws, this`cages
      ensures kind == ScrewImplant && 0 <= index < |old(screws)| ==>
                screws == old(screws)[..index] + old(screws)[index + 1..] && cages == old(cages)
      ensures kind == CageImplant && 0 <= index < |old(cages)| ==>
                cages == old(cages)[..index] + old(cages)[index + 1..] && screws == old(screws)
      ensures !(0 <= index < (if kind == ScrewImplant then |old(screws)| else |old(cages)|)) ==> unchanged(this)
    {
      if kind == ScrewImplant && 0 <= index < |screws| {
        screws := screws[..index] + screws[index + 1..];
      } else if kind == CageImplant && 0 <= index < |cages| {
        cages := cages[..index] + cages[index + 1..];
      }
    }

    /** generate_rod_model: nothing without screws; otherwise a rod through
        the screw heads in order of height, with the chosen side and
        diameter. */
    method GenerateRodModel(side: string, diameter: string)
      modifies this`rod
      ensures |screws| == 0 ==> rod == old(rod)
      ensures |screws| > 0 ==> rod == Some(Rod(SortByY(Heads(screws)), side, diameter))
      ensures |screws| > 0 ==> SortedByY(rod.value.points) && multiset(rod.value.points) == multiset(Heads(screws))
    {
      if |screws| == 0 {
        return;
      }
      var heads := [];
      for i := 0 to |screws|
        invariant heads == Heads(screws[..i])
      {
        heads := heads + [screws[i].head];
      }
      assert screws[..|screws|] == screws;
      var points: seq<Point> := [];
      for i := 0 to |heads|
        invariant points == SortByY(heads[..i])
      {
        assert heads[..i + 1][..i] == heads[..i];
        points := InsertByY(points, heads[i]);
      }
      assert heads[..|heads|] == heads;
      SortByYCorrect(heads);
      rod := Some(Rod(points, side, diameter));
    }

    /** copy_to_clipboard of SFP-Ver0.2.py: the text handed to the clipboard. */
    method CopyToClipboard(render: real -> string) returns (text: string)
      ensures text == SessionReport(measurementLabels, simulatedMeasurements, isSimulated, render)
    {
      text := AppendLines(BaselineHeader, measurementLabels, render);
      if isSimulated {
        text := AppendLines(text + SimulatedHeader, simulatedMeasurements, render);
      }
    }

    /** copy_to_clipboard of FirstDraft.py and SFP-Ver0.1.py: the baseline
        lines alone. */
    method CopyBaselineToClipboard(render: real -> string) returns (text: string)
      ensures text == ReportText(measurementLabels, render)
    {
      text := AppendLines("", measurementLabels, render);
    }
  }
}
