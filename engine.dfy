/** The measurement engine: from the placed landmarks and the image's pixel
    spacing to the nine sagittal parameters shown in the sidebar.  The
    formulas are the same in FirstDraft.py, SFP-Ver0.1.py and SFP-Ver0.2.py
    (calculate_angle and update_measurements), so they are modelled once. */
module Engine {

  /** A landmark as on_click stores it: truncated integer image coordinates,
      origin top-left, y growing downward. */
  datatype Point = Point(x: int, y: int)

  /** pixel_spacing = [row spacing, column spacing] in millimetres per pixel. */
  datatype Spacing = Spacing(row: real, col: real)

  type Landmarks = map<string, Point>

  /** The maths-library calls the engine makes, left uninterpreted:
      atan2Deg(y, x) is math.degrees(math.atan2(y, x)), acosDeg(c) is
      math.degrees(math.acos(c)) and sqrt is the square root inside
      np.linalg.norm. */
  datatype Trig = Trig(atan2Deg: (real, real) -> real, acosDeg: real -> real, sqrt: real -> real)

  function Scaled(k: real, v: real): real { k * v }

  /** acos of a value in [-1, 1] lies in [0, 180] degrees. */
  ghost predicate AcosInRange(t: Trig) {
    forall c :: -1.0 <= c <= 1.0 ==> 0.0 <= t.acosDeg(c) <= 180.0
  }

  /** atan2 only sees the direction of (x, y): scaling both by k > 0 changes nothing. */
  ghost predicate Atan2Homogeneous(t: Trig) {
    forall k, y, x :: k > 0.0 ==> t.atan2Deg(Scaled(k, y), Scaled(k, x)) == t.atan2Deg(y, x)
  }

  /** k * k * v, the argument the square root sees when a vector is scaled by k. */
  function SquareScaled(k: real, v: real): real { k * k * v }

  /** The square root is positively homogeneous: sqrt(k * k * v) == k * sqrt(v)
      for k > 0 and v >= 0. */
  ghost predicate SqrtHomogeneous(t: Trig) {
    forall k, v :: k > 0.0 && v >= 0.0 ==> t.sqrt(SquareScaled(k, v)) == k * t.sqrt(v)
  }

  /** The square-root facts the pelvic incidence needs. */
  ghost predicate SqrtLaws(t: Trig) {
    && t.sqrt(0.0) == 0.0
    && (forall v :: v > 0.0 ==> t.sqrt(v) > 0.0)
  }

  datatype Unit = Degrees | Millimetres

  /** What a measurement label holds: "--", a number with its unit, the
      "nan" numpy produces for a degenerate pelvic incidence, or any other
      text (which the correction step cannot parse). */
  datatype Entry = Unavailable | Value(v: real, unit: Unit) | NotANumber(nanUnit: Unit) | Garbled(text: string)

  /** A row of a measurement dict: the parameter name and its label's content. */
  datatype Label = Label(name: string, entry: Entry)

  datatype Param =
    CBVA | C2C7Lordosis | C2C7Sva | T1Slope | LumbarLordosis | SacralSlope | PelvicTilt | PelvicIncidence | Sva

  /** The measurement dict's keys, in insertion (display) order. */
  const Params: seq<Param> :=
    [CBVA, C2C7Lordosis, C2C7Sva, T1Slope, LumbarLordosis, SacralSlope, PelvicTilt, PelvicIncidence, Sva]

  const MeasurementNames: seq<string> :=
    ["CBVA", "C2\U{2013}C7 Lordosis", "C2\U{2013}C7 SVA", "T1 Slope", "Lumbar Lordosis",
     "Sacral Slope", "Pelvic Tilt", "PI (vector)", "SVA"]

  function Name(p: Param): string {
    match p
    case CBVA => "CBVA"
    case C2C7Lordosis => "C2\U{2013}C7 Lordosis"
    case C2C7Sva => "C2\U{2013}C7 SVA"
    case T1Slope => "T1 Slope"
    case LumbarLordosis => "Lumbar Lordosis"
    case SacralSlope => "Sacral Slope"
    case PelvicTilt => "Pelvic Tilt"
    case PelvicIncidence => "PI (vector)"
    case Sva => "SVA"
  }

  /** The landmark keys each parameter's `all(k in lm for k in [...])` test names. */
  function Required(p: Param): set<string> {
    match p
    case CBVA => {"chin", "brow"}
    case C2C7Lordosis => {"C2_ant", "C2_post", "C7_ant", "C7_post"}
    case C2C7Sva => {"C2_post", "C7_post"}
    case T1Slope => {"T1_ant", "T1_post"}
    case LumbarLordosis => {"L1_ant", "L1_post", "L5_ant", "L5_post"}
    case SacralSlope => {"S1_ant", "S1_post"}
    case PelvicTilt => {"S1_ant", "S1_post", "hip"}
    case PelvicIncidence => {"S1_ant", "S1_post", "hip"}
    case Sva => {"C7_post", "S1_post"}
  }

  predicate Available(lm: Landmarks, p: Param) {
    Required(p) <= lm.Keys
  }

  /** The parameters reported in millimetres. */
  predicate IsDistance(p: Param) {
    p == C2C7Sva || p == Sva
  }

  function Abs(r: real): real { if r < 0.0 then -r else r }

  function Min(a: real, b: real): real { if b < a then b else a }

  function Clip(c: real): real { if c < -1.0 then -1.0 else if c > 1.0 then 1.0 else c }

  /** A pixel delta converted to millimetres with one axis's spacing. */
  function Calibrated(d: int, spacing: real): real {
    d as real * spacing
  }

  /** calculate_angle: the inclination of the line p1 -> p2, with x scaled by
      the column spacing, y by the row spacing and the y axis flipped. */
  function EndplateAngle(t: Trig, cal: Spacing, p1: Point, p2: Point): real {
    var dx := Calibrated(p2.x - p1.x, cal.col);
    var dy := Calibrated(p2.y - p1.y, cal.row);
    t.atan2Deg(-dy, dx)
  }

  /** Lordosis between two endplates: the absolute difference of their angles. */
  function Lordosis(t: Trig, cal: Spacing, upperAnt: Point, upperPost: Point, lowerAnt: Point, lowerPost: Point): real {
    Abs(EndplateAngle(t, cal, upperAnt, upperPost) - EndplateAngle(t, cal, lowerAnt, lowerPost))
  }

  /** A sagittal vertical axis: the x offset of two points in millimetres. */
  function HorizontalDistance(cal: Spacing, a: Point, b: Point): real {
    Abs(Calibrated(a.x - b.x, cal.col))
  }

  function Cbva(t: Trig, cal: Spacing, chin: Point, brow: Point): real {
    t.atan2Deg(Calibrated(brow.x - chin.x, cal.col), -Calibrated(brow.y - chin.y, cal.row))
  }

  /** How far the midpoint of a and b lies beyond h, in pixels. */
  function MidOffset(a: int, b: int, h: int): real {
    (a + b) as real / 2.0 - h as real
  }

  /** The calibrated vector from the femoral head to the midpoint of the S1 endplate. */
  function HipToSacrum(cal: Spacing, s1Ant: Point, s1Post: Point, hip: Point): (real, real) {
    (MidOffset(s1Ant.x, s1Post.x, hip.x) * cal.col, MidOffset(s1Ant.y, s1Post.y, hip.y) * cal.row)
  }

  function PelvicTiltAngle(t: Trig, cal: Spacing, s1Ant: Point, s1Post: Point, hip: Point): real {
    var d := HipToSacrum(cal, s1Ant, s1Post, hip);
    Abs(t.atan2Deg(d.0, -d.1))
  }

  /** np.linalg.norm of (a, b). */
  function Norm(t: Trig, a: real, b: real): real {
    t.sqrt(a * a + b * b)
  }

  /** The dot product of the hip vector (ax, ay) with the endplate's
      perpendicular (-sy, sx). */
  function Dot(ax: real, ay: real, sx: real, sy: real): real {
    ax * -sy + ay * sx
  }

  /** The cosine's denominator: the norm of the hip vector times the norm of
      the endplate's perpendicular. */
  function NormProduct(t: Trig, ax: real, ay: real, sx: real, sy: real): real {
    Norm(t, ax, ay) * Norm(t, sy, sx)
  }

  /** The last step of the pelvic incidence: clip the cosine, acos, and fold
      into min(pi, 180 - pi).  A zero denominator makes numpy divide 0 by 0,
      and the NaN survives clip, acos and min. */
  function IncidenceOfParts(t: Trig, dot: real, denom: real): Entry {
    if denom == 0.0 then NotANumber(Degrees)
    else
      var pi := t.acosDeg(Clip(dot / denom));
      Value(Min(pi, 180.0 - pi), Degrees)
  }

  /** The pelvic incidence from the hip vector (ax, ay) and the calibrated
      S1 endplate vector (sx, sy): the angle between the hip vector and the
      endplate's perpendicular, folded into its acute form. */
  function IncidenceFrom(t: Trig, ax: real, ay: real, sx: real, sy: real): Entry {
    IncidenceOfParts(t, Dot(ax, ay, sx, sy), NormProduct(t, ax, ay, sx, sy))
  }

  function Incidence(t: Trig, cal: Spacing, s1Ant: Point, s1Post: Point, hip: Point): Entry {
    var d := HipToSacrum(cal, s1Ant, s1Post, hip);
    IncidenceFrom(t, d.0, d.1, Calibrated(s1Post.x - s1Ant.x, cal.col), Calibrated(s1Post.y - s1Ant.y, cal.row))
  }

  /** One parameter of update_measurements: "--" unless all of its own
      landmarks are placed, otherwise its formula with its unit. */
  function Measure(p: Param, lm: Landmarks, cal: Spacing, t: Trig): (e: Entry)
    ensures e.Unavailable? <==> !Available(lm, p)
    ensures e.Value? ==> (e.unit == Millimetres <==> IsDistance(p))
    ensures e.NotANumber? ==> p == PelvicIncidence
    ensures !e.Garbled?
    ensures e.Value? && p in {C2C7Lordosis, C2C7Sva, LumbarLordosis, PelvicTilt, Sva} ==> e.v >= 0.0
  {
    if !Available(lm, p) then Unavailable
    else
      match p
      case CBVA => Value(Cbva(t, cal, lm["chin"], lm["brow"]), Degrees)
      case C2C7Lordosis => Value(Lordosis(t, cal, lm["C2_ant"], lm["C2_post"], lm["C7_ant"], lm["C7_post"]), Degrees)
      case C2C7Sva => Value(HorizontalDistance(cal, lm["C2_post"], lm["C7_post"]), Millimetres)
      case T1Slope => Value(EndplateAngle(t, cal, lm["T1_ant"], lm["T1_post"]), Degrees)
      case LumbarLordosis => Value(Lordosis(t, cal, lm["L1_ant"], lm["L1_post"], lm["L5_ant"], lm["L5_post"]), Degrees)
      case SacralSlope => Value(EndplateAngle(t, cal, lm["S1_ant"], lm["S1_post"]), Degrees)
      case PelvicTilt => Value(PelvicTiltAngle(t, cal, lm["S1_ant"], lm["S1_post"], lm["hip"]), Degrees)
      case PelvicIncidence => Incidence(t, cal, lm["S1_ant"], lm["S1_post"], lm["hip"])
      case Sva => Value(HorizontalDistance(cal, lm["C7_post"], lm["S1_post"]), Millimetres)
  }

  /** All nine parameters, in the measurement dict's order. */
  function Snapshot(lm: Landmarks, cal: Spacing, t: Trig): (r: seq<Entry>)
    ensures |r| == |Params|
    ensures forall i :: 0 <= i < |r| ==> (r[i].Unavailable? <==> !Available(lm, Params[i]))
  {
    seq(|Params|, i requires 0 <= i < |Params| => Measure(Params[i], lm, cal, t))
  }

  /** Pairs each entry with the name of the dict row it is written to. */
  function Labelled(es: seq<Entry>): (r: seq<Label>)
    requires |es| == |MeasurementNames|
    ensures |r| == |es|
    ensures forall i :: 0 <= i < |r| ==> r[i].name == MeasurementNames[i] && r[i].entry == es[i]
  {
    seq(|es|, i requires 0 <= i < |es| => Label(MeasurementNames[i], es[i]))
  }

  /** A dict whose rows carry the nine names in order. */
  predicate WellNamed(labels: seq<Label>) {
    |labels| == |MeasurementNames| && forall i :: 0 <= i < |labels| ==> labels[i].name == MeasurementNames[i]
  }

  /** The dict as built by __init__ and as left after a reset: every row "--". */
  function BlankLabels(): (r: seq<Label>)
    ensures WellNamed(r)
    ensures forall i :: 0 <= i < |r| ==> r[i].entry == Unavailable
  {
    Labelled(seq(|MeasurementNames|, _ => Unavailable))
  }

  lemma NamesInOrder()
    ensures |Params| == |MeasurementNames|
    ensures forall i :: 0 <= i < |Params| ==> Name(Params[i]) == MeasurementNames[i]
  {
  }

  /** With no landmark placed (right after an image is loaded) every parameter is "--". */
  lemma EmptySnapshotIsBlank(cal: Spacing, t: Trig)
    ensures Labelled(Snapshot(map[], cal, t)) == BlankLabels()
  {
    var s := Snapshot(map[], cal, t);
    forall i | 0 <= i < |s| ensures s[i] == Unavailable {
      assert !Available(map[], Params[i]) by {
        assert Required(Params[i]) != {};
      }
    }
  }

  /** A parameter depends only on its own landmarks: two stores that agree on
      its required keys give it the same result, whatever else they hold. */
  lemma MeasureIsLocal(p: Param, lm1: Landmarks, lm2: Landmarks, cal: Spacing, t: Trig)
    requires forall k :: k in Required(p) ==> (k in lm1 <==> k in lm2)
    requires forall k :: k in Required(p) && k in lm1 && k in lm2 ==> lm1[k] == lm2[k]
    ensures Measure(p, lm1, cal, t) == Measure(p, lm2, cal, t)
  {
  }

  /** Placing a landmark that a parameter does not use leaves that parameter alone. */
  lemma UnrelatedLandmarkKeepsMeasure(p: Param, lm: Landmarks, name: string, pt: Point, cal: Spacing, t: Trig)
    requires name !in Required(p)
    ensures Measure(p, lm[name := pt], cal, t) == Measure(p, lm, cal, t)
  {
    MeasureIsLocal(p, lm[name := pt], lm, cal, t);
  }

  /** calculate_angle only sees the calibrated deltas: moving both points by
      the same offset does not change it. */
  lemma EndplateAngleTranslationInvariant(t: Trig, cal: Spacing, p1: Point, p2: Point, dx: int, dy: int)
    ensures EndplateAngle(t, cal, Point(p1.x + dx, p1.y + dy), Point(p2.x + dx, p2.y + dy))
         == EndplateAngle(t, cal, p1, p2)
  {
    assert (p2.x + dx) - (p1.x + dx) == p2.x - p1.x;
    assert (p2.y + dy) - (p1.y + dy) == p2.y - p1.y;
  }

  /** Lordosis is unchanged when the two endplates are swapped. */
  lemma LordosisSwapSymmetric(t: Trig, cal: Spacing, a1: Point, a2: Point, b1: Point, b2: Point)
    ensures Lordosis(t, cal, a1, a2, b1, b2) == Lordosis(t, cal, b1, b2, a1, a2)
    ensures Lordosis(t, cal, a1, a2, b1, b2) >= 0.0
  {
  }

  lemma AbsScale(k: real, z: real)
    requires k >= 0.0
    ensures Abs(k * z) == k * Abs(z)
  {
    if z < 0.0 {
      assert k * z <= 0.0;
      assert -(k * z) == k * -z;
    }
  }

  lemma CalibratedScale(d: int, s: real, k: real)
    ensures Calibrated(d, k * s) == k * Calibrated(d, s)
  {
  }

  /** An SVA is symmetric in its two points, ignores y and the row spacing,
      and scales linearly with the column spacing. */
  lemma HorizontalDistanceProperties(cal: Spacing, a: Point, b: Point, otherRow: real, ya: int, yb: int, k: real)
    requires k >= 0.0
    ensures HorizontalDistance(cal, a, b) >= 0.0
    ensures HorizontalDistance(cal, a, b) == HorizontalDistance(cal, b, a)
    ensures HorizontalDistance(Spacing(otherRow, cal.col), Point(a.x, ya), Point(b.x, yb)) == HorizontalDistance(cal, a, b)
    ensures HorizontalDistance(Spacing(cal.row, k * cal.col), a, b) == k * HorizontalDistance(cal, a, b)
  {
    assert Calibrated(b.x - a.x, cal.col) == -Calibrated(a.x - b.x, cal.col);
    CalibratedScale(a.x - b.x, cal.col, k);
    AbsScale(k, Calibrated(a.x - b.x, cal.col));
  }

  /** The pelvic incidence, when it is a number, lies in [0, 90]: the cosine
      is clipped into [-1, 1] before acos and min(pi, 180 - pi) folds it. */
  lemma IncidenceOfPartsInRange(t: Trig, dot: real, denom: real)
    requires AcosInRange(t)
    ensures IncidenceOfParts(t, dot, denom).Value? ==> 0.0 <= IncidenceOfParts(t, dot, denom).v <= 90.0
  {
    if denom != 0.0 {
      assert 0.0 <= t.acosDeg(Clip(dot / denom)) <= 180.0;
    }
  }

  lemma IncidenceInRange(t: Trig, lm: Landmarks, cal: Spacing)
    requires AcosInRange(t)
    ensures Measure(PelvicIncidence, lm, cal, t).Value? ==>
              0.0 <= Measure(PelvicIncidence, lm, cal, t).v <= 90.0
  {
    if Available(lm, PelvicIncidence) {
      var sa, sp, hip := lm["S1_ant"], lm["S1_post"], lm["hip"];
      var d := HipToSacrum(cal, sa, sp, hip);
      var sx, sy := Calibrated(sp.x - sa.x, cal.col), Calibrated(sp.y - sa.y, cal.row);
      IncidenceOfPartsInRange(t, Dot(d.0, d.1, sx, sy), Norm(t, d.0, d.1) * Norm(t, sy, sx));
    }
  }

  lemma SquarePositive(a: real)
    ensures a * a >= 0.0
    ensures a != 0.0 ==> a * a > 0.0
  {
    if a < 0.0 {
      assert a * a == (-a) * (-a);
    }
  }

  /** A sum of two squares is positive unless both terms are zero. */
  lemma SumOfSquaresPositive(a: real, b: real)
    ensures a * a + b * b >= 0.0
    ensures a != 0.0 || b != 0.0 ==> a * a + b * b > 0.0
    ensures a == 0.0 && b == 0.0 ==> a * a + b * b == 0.0
  {
    SquarePositive(a);
    SquarePositive(b);
  }

  /** The square root of a sum of squares is zero exactly at the origin. */
  lemma NormZero(t: Trig, a: real, b: real)
    requires SqrtLaws(t)
    ensures Norm(t, a, b) == 0.0 <==> a == 0.0 && b == 0.0
  {
    SumOfSquaresPositive(a, b);
    if a == 0.0 && b == 0.0 {
      assert a * a + b * b == 0.0;
    } else {
      assert a * a + b * b > 0.0;
    }
  }

  lemma ProductZero(a: real, b: real)
    ensures a * b == 0.0 <==> a == 0.0 || b == 0.0
  {
  }

  /** The pelvic incidence is NaN exactly when one of its two vectors is zero. */
  lemma IncidenceNaNIffDegenerate(t: Trig, ax: real, ay: real, sx: real, sy: real)
    requires SqrtLaws(t)
    ensures IncidenceFrom(t, ax, ay, sx, sy).NotANumber? <==> (ax == 0.0 && ay == 0.0) || (sx == 0.0 && sy == 0.0)
  {
    NormZero(t, ax, ay);
    NormZero(t, sy, sx);
    ProductZero(Norm(t, ax, ay), Norm(t, sy, sx));
  }

  /** In landmark terms, with positive spacing: the pelvic incidence is NaN
      exactly when the femoral head sits on the S1 midpoint or the two S1
      points coincide. */
  lemma IncidenceNaNOnCoincidentPoints(t: Trig, lm: Landmarks, cal: Spacing)
    requires SqrtLaws(t)
    requires cal.row > 0.0 && cal.col > 0.0
    requires Available(lm, PelvicIncidence)
    ensures Measure(PelvicIncidence, lm, cal, t).NotANumber? <==>
              (lm["S1_ant"].x + lm["S1_post"].x == 2 * lm["hip"].x && lm["S1_ant"].y + lm["S1_post"].y == 2 * lm["hip"].y)
              || lm["S1_ant"] == lm["S1_post"]
  {
    var sa, sp, hip := lm["S1_ant"], lm["S1_post"], lm["hip"];
    var d := HipToSacrum(cal, sa, sp, hip);
    var sx := Calibrated(sp.x - sa.x, cal.col);
    var sy := Calibrated(sp.y - sa.y, cal.row);
    IncidenceNaNIffDegenerate(t, d.0, d.1, sx, sy);
    ProductZero(MidOffset(sa.x, sp.x, hip.x), cal.col);
    ProductZero(MidOffset(sa.y, sp.y, hip.y), cal.row);
    ProductZero((sp.x - sa.x) as real, cal.col);
    ProductZero((sp.y - sa.y) as real, cal.row);
  }

  /** Multiplying both spacings by k. */
  function ScaleSpacing(cal: Spacing, k: real): Spacing {
    Spacing(k * cal.row, k * cal.col)
  }

  /** What uniform recalibration does to a result: distances scale, angles stay. */
  function ScaleEntry(e: Entry, k: real): Entry {
    if e.Value? && e.unit == Millimetres then Value(k * e.v, Millimetres) else e
  }

  lemma NegScale(k: real, y: real)
    ensures k * -y == -(k * y)
  {
  }

  lemma Atan2Scale(t: Trig, k: real, y: real, x: real, y': real, x': real)
    requires Atan2Homogeneous(t) && k > 0.0
    requires y' == k * y && x' == k * x
    ensures t.atan2Deg(y', x') == t.atan2Deg(y, x)
  {
    assert t.atan2Deg(Scaled(k, y), Scaled(k, x)) == t.atan2Deg(y, x);
  }

  lemma EndplateAngleScale(t: Trig, cal: Spacing, k: real, p1: Point, p2: Point)
    requires Atan2Homogeneous(t) && k > 0.0
    ensures EndplateAngle(t, ScaleSpacing(cal, k), p1, p2) == EndplateAngle(t, cal, p1, p2)
  {
    var dx, dy := Calibrated(p2.x - p1.x, cal.col), Calibrated(p2.y - p1.y, cal.row);
    var dx', dy' := Calibrated(p2.x - p1.x, k * cal.col), Calibrated(p2.y - p1.y, k * cal.row);
    CalibratedScale(p2.x - p1.x, cal.col, k);
    CalibratedScale(p2.y - p1.y, cal.row, k);
    NegScale(k, dy);
    assert -dy' == k * -dy;
    Atan2Scale(t, k, -dy, dx, -dy', dx');
    var sc := ScaleSpacing(cal, k);
    assert sc.row == k * cal.row && sc.col == k * cal.col;
    assert Calibrated(p2.y - p1.y, sc.row) == dy';
    assert EndplateAngle(t, sc, p1, p2) == t.atan2Deg(-dy', dx');
  }

  /** The hip vector is a pair of calibrated lengths: both components scale by k. */
  lemma HipToSacrumScale(cal: Spacing, k: real, s1Ant: Point, s1Post: Point, hip: Point)
    ensures HipToSacrum(ScaleSpacing(cal, k), s1Ant, s1Post, hip).0 == k * HipToSacrum(cal, s1Ant, s1Post, hip).0
    ensures HipToSacrum(ScaleSpacing(cal, k), s1Ant, s1Post, hip).1 == k * HipToSacrum(cal, s1Ant, s1Post, hip).1
  {
    var mx, my := MidOffset(s1Ant.x, s1Post.x, hip.x), MidOffset(s1Ant.y, s1Post.y, hip.y);
    assert mx * (k * cal.col) == k * (mx * cal.col);
    assert my * (k * cal.row) == k * (my * cal.row);
  }

  lemma CbvaScale(t: Trig, cal: Spacing, k: real, chin: Point, brow: Point)
    requires Atan2Homogeneous(t) && k > 0.0
    ensures Cbva(t, ScaleSpacing(cal, k), chin, brow) == Cbva(t, cal, chin, brow)
  {
    var dx, dy := Calibrated(brow.x - chin.x, cal.col), Calibrated(brow.y - chin.y, cal.row);
    var dx', dy' := Calibrated(brow.x - chin.x, k * cal.col), Calibrated(brow.y - chin.y, k * cal.row);
    CalibratedScale(brow.x - chin.x, cal.col, k);
    CalibratedScale(brow.y - chin.y, cal.row, k);
    NegScale(k, dy);
    assert -dy' == k * -dy;
    Atan2Scale(t, k, dx, -dy, dx', -dy');
    var sc := ScaleSpacing(cal, k);
    assert sc.row == k * cal.row && sc.col == k * cal.col;
    assert Cbva(t, sc, chin, brow) == t.atan2Deg(dx', -dy');
  }

  lemma LordosisScale(t: Trig, cal: Spacing, k: real, a1: Point, a2: Point, b1: Point, b2: Point)
    requires Atan2Homogeneous(t) && k > 0.0
    ensures Lordosis(t, ScaleSpacing(cal, k), a1, a2, b1, b2) == Lordosis(t, cal, a1, a2, b1, b2)
  {
    EndplateAngleScale(t, cal, k, a1, a2);
    EndplateAngleScale(t, cal, k, b1, b2);
  }

  lemma PelvicTiltScale(t: Trig, cal: Spacing, k: real, s1Ant: Point, s1Post: Point, hip: Point)
    requires Atan2Homogeneous(t) && k > 0.0
    ensures PelvicTiltAngle(t, ScaleSpacing(cal, k), s1Ant, s1Post, hip) == PelvicTiltAngle(t, cal, s1Ant, s1Post, hip)
  {
    var d := HipToSacrum(cal, s1Ant, s1Post, hip);
    var d' := HipToSacrum(ScaleSpacing(cal, k), s1Ant, s1Post, hip);
    HipToSacrumScale(cal, k, s1Ant, s1Post, hip);
    NegScale(k, d.1);
    assert -d'.1 == k * -d.1;
    Atan2Scale(t, k, d.0, -d.1, d'.0, -d'.1);
  }

  lemma SvaScale(cal: Spacing, k: real, a: Point, b: Point)
    requires k > 0.0
    ensures HorizontalDistance(ScaleSpacing(cal, k), a, b) == k * HorizontalDistance(cal, a, b)
  {
    HorizontalDistanceProperties(cal, a, b, k * cal.row, a.y, b.y, k);
  }

  /** Both norms of the pelvic incidence scale by k with their vector. */
  lemma NormScale(t: Trig, k: real, a: real, b: real, a': real, b': real)
    requires SqrtHomogeneous(t) && k > 0.0
    requires a' == k * a && b' == k * b
    ensures Norm(t, a', b') == k * Norm(t, a, b)
  {
    var v := a * a + b * b;
    SumOfSquaresPositive(a, b);
    assert a' * a' == k * k * (a * a);
    assert b' * b' == k * k * (b * b);
    assert a' * a' + b' * b' == SquareScaled(k, v);
  }

  /** The dot product is bilinear: scaling both vectors by k scales it by k * k. */
  lemma DotScale(k: real, ax: real, ay: real, sx: real, sy: real, ax': real, ay': real, sx': real, sy': real)
    requires ax' == k * ax && ay' == k * ay && sx' == k * sx && sy' == k * sy
    ensures Dot(ax', ay', sx', sy') == k * (k * Dot(ax, ay, sx, sy))
  {
    assert ax' * -sy' == k * (k * (ax * -sy));
    assert ay' * sx' == k * (k * (ay * sx));
  }

  lemma ProductScale(k: real, a: real, b: real, a': real, b': real)
    requires a' == k * a && b' == k * b
    ensures a' * b' == k * (k * (a * b))
  {
  }

  lemma QuotientOfScaled(k: real, x: real, y: real, x': real, y': real)
    requires k != 0.0 && y != 0.0 && x' == k * x && y' == k * y
    ensures x' / y' == x / y
  {
    var q := x / y;
    assert x == q * y;
    assert x' == q * y';
  }

  lemma NormProductScale(t: Trig, k: real, ax: real, ay: real, sx: real, sy: real, ax': real, ay': real, sx': real, sy': real)
    requires SqrtHomogeneous(t) && k > 0.0
    requires ax' == k * ax && ay' == k * ay && sx' == k * sx && sy' == k * sy
    ensures NormProduct(t, ax', ay', sx', sy') == k * (k * NormProduct(t, ax, ay, sx, sy))
  {
    NormScale(t, k, ax, ay, ax', ay');
    NormScale(t, k, sy, sx, sy', sx');
    ProductScale(k, Norm(t, ax, ay), Norm(t, sy, sx), Norm(t, ax', ay'), Norm(t, sy', sx'));
  }

  /** Scaling numerator and denominator by the same positive factor keeps
      the quotient and whether the denominator is zero. */
  lemma IncidenceOfPartsScale(t: Trig, k: real, dot: real, denom: real, dot': real, denom': real)
    requires k > 0.0 && dot' == k * dot && denom' == k * denom
    ensures IncidenceOfParts(t, dot', denom') == IncidenceOfParts(t, dot, denom)
  {
    ProductZero(k, denom);
    if denom != 0.0 {
      QuotientOfScaled(k, dot, denom, dot', denom');
    }
  }

  /** The angle between two vectors does not change when both are scaled
      by the same k > 0: the dot product and the product of the norms both
      scale by k * k. */
  lemma IncidenceFromScale(t: Trig, k: real, ax: real, ay: real, sx: real, sy: real, ax': real, ay': real, sx': real, sy': real)
    requires SqrtHomogeneous(t) && k > 0.0
    requires ax' == k * ax && ay' == k * ay && sx' == k * sx && sy' == k * sy
    ensures IncidenceFrom(t, ax', ay', sx', sy') == IncidenceFrom(t, ax, ay, sx, sy)
  {
    NormProductScale(t, k, ax, ay, sx, sy, ax', ay', sx', sy');
    DotScale(k, ax, ay, sx, sy, ax', ay', sx', sy');
    var dot, den := Dot(ax, ay, sx, sy), NormProduct(t, ax, ay, sx, sy);
    IncidenceOfPartsScale(t, k, dot, den, k * dot, k * den);
    IncidenceOfPartsScale(t, k, k * dot, k * den, Dot(ax', ay', sx', sy'), NormProduct(t, ax', ay', sx', sy'));
  }

  /** The pelvic incidence is an angle between two calibrated vectors, so a
      uniform recalibration leaves it as it was. */
  lemma IncidenceScale(t: Trig, cal: Spacing, k: real, s1Ant: Point, s1Post: Point, hip: Point)
    requires SqrtHomogeneous(t) && k > 0.0
    ensures Incidence(t, ScaleSpacing(cal, k), s1Ant, s1Post, hip) == Incidence(t, cal, s1Ant, s1Post, hip)
  {
    var sc := ScaleSpacing(cal, k);
    var d, d' := HipToSacrum(cal, s1Ant, s1Post, hip), HipToSacrum(sc, s1Ant, s1Post, hip);
    HipToSacrumScale(cal, k, s1Ant, s1Post, hip);
    CalibratedScale(s1Post.x - s1Ant.x, cal.col, k);
    CalibratedScale(s1Post.y - s1Ant.y, cal.row, k);
    IncidenceFromScale(t, k, d.0, d.1, Calibrated(s1Post.x - s1Ant.x, cal.col), Calibrated(s1Post.y - s1Ant.y, cal.row),
      d'.0, d'.1, Calibrated(s1Post.x - s1Ant.x, sc.col), Calibrated(s1Post.y - s1Ant.y, sc.row));
  }

  /** Calibration scaling: multiplying both pixel spacings by k > 0 scales
      every millimetre result by k and leaves every angle, every NaN and
      every "--" as it was. */
  lemma MeasureScale(p: Param, lm: Landmarks, cal: Spacing, t: Trig, k: real)
    requires Atan2Homogeneous(t) && SqrtHomogeneous(t) && k > 0.0
    ensures Measure(p, lm, ScaleSpacing(cal, k), t) == ScaleEntry(Measure(p, lm, cal, t), k)
  {
    if Available(lm, p) {
      match p
      case CBVA => CbvaScale(t, cal, k, lm["chin"], lm["brow"]);
      case C2C7Lordosis => LordosisScale(t, cal, k, lm["C2_ant"], lm["C2_post"], lm["C7_ant"], lm["C7_post"]);
      case C2C7Sva => SvaScale(cal, k, lm["C2_post"], lm["C7_post"]);
      case T1Slope => EndplateAngleScale(t, cal, k, lm["T1_ant"], lm["T1_post"]);
      case LumbarLordosis => LordosisScale(t, cal, k, lm["L1_ant"], lm["L1_post"], lm["L5_ant"], lm["L5_post"]);
      case SacralSlope => EndplateAngleScale(t, cal, k, lm["S1_ant"], lm["S1_post"]);
      case PelvicTilt => PelvicTiltScale(t, cal, k, lm["S1_ant"], lm["S1_post"], lm["hip"]);
      case PelvicIncidence => IncidenceScale(t, cal, k, lm["S1_ant"], lm["S1_post"], lm["hip"]);
      case Sva => SvaScale(cal, k, lm["C7_post"], lm["S1_post"]);
    }
  }

  /** The whole snapshot under recalibration, entry by entry. */
  lemma SnapshotScale(lm: Landmarks, cal: Spacing, t: Trig, k: real)
    requires Atan2Homogeneous(t) && SqrtHomogeneous(t) && k > 0.0
    ensures forall i :: 0 <= i < |Params| ==>
              Snapshot(lm, ScaleSpacing(cal, k), t)[i] == ScaleEntry(Snapshot(lm, cal, t)[i], k)
  {
    forall i | 0 <= i < |Params|
      ensures Snapshot(lm, ScaleSpacing(cal, k), t)[i] == ScaleEntry(Snapshot(lm, cal, t)[i], k)
    {
      MeasureScale(Params[i], lm, cal, t, k);
    }
  }

  /** Example: an S1 endplate from (100, 300) to (140, 310) at unit spacing
      has sacral slope atan2(-10, 40) in degrees, and no pelvic tilt without
      a femoral head. */
  lemma SacralSlopeExample(t: Trig, lm: Landmarks)
    requires lm == map["S1_ant" := Point(100, 300), "S1_post" := Point(140, 310)]
    ensures Measure(SacralSlope, lm, Spacing(1.0, 1.0), t) == Value(t.atan2Deg(-10.0, 40.0), Degrees)
    ensures Measure(PelvicTilt, lm, Spacing(1.0, 1.0), t) == Unavailable
  {
    assert Available(lm, SacralSlope);
    assert "hip" !in lm;
  }
}
