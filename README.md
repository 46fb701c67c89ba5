# SpineForgePlanner in Dafny

SpineForgePlanner is a Tkinter tool for planning spinal deformity surgery on a
sagittal radiograph. The surgeon loads a DICOM image and clicks anatomical
landmarks (chin and brow, the C2, C7, T1, L1, L5 and S1 endplates, the femoral
head). The tool then shows nine sagittal parameters. In its latest version the
surgeon can also:

- draw osteotomies (SPO, PSO, VCR), each created with an expected correction;
- "apply" them to get a simulated set of measurements, corrected by a fixed
  rule table;
- accept the simulation;
- place screws and cages, and build a rod through the screw heads;
- copy the measurements to the clipboard as text.

This project models the logic of the three versions, `FirstDraft.py`,
`SFP-Ver0.1.py` and `SFP-Ver0.2.py`. It leaves out their user interface.

- `engine.dfy`, module `Engine`: the measurement engine (`calculate_angle`,
  `update_measurements`).
  - It is pure. A landmark store and a pixel spacing give nine entries: `--`,
    a value in degrees or millimetres, or the NaN numpy produces for a
    degenerate pelvic incidence.
  - `atan2`, `acos` and the square root are a parameter (`Trig`). Only the
    laws a lemma needs are stated, as its preconditions (for example, that
    atan2 sees only a direction and that the square root is positively
    homogeneous).
  - The formulas are the same in the three files, so they are modelled once.
    The table cites each file's copy.
- `corrections.dfy`, module `Corrections`: the osteotomy correction estimator
  of `SFP-Ver0.2.py`.
  - The expected correction an osteotomy is created with, and the preview
    label.
  - The if/elif rule chain of `apply_osteotomy_corrections`, as a rule per
    measurement name and a contribution per osteotomy.
  - The correction of one label, and of a whole dict, by the loops the source
    uses.
- `report.dfy`, module `Report`: the clipboard text. It has one
  `name: text` line for every label that does not read `--`. `SFP-Ver0.2.py`
  adds a baseline header and, after acceptance, a simulated block.
- `planner.dfy`, module `Planner`: the session, as a class `Session` whose
  fields the methods update in place.
  - Fields: the image, original and simulated images, zoom and offset, pixel
    spacing, landmarks, current selection, label positions, osteotomy points
    and list, the simulation flag, the two measurement dicts, screws, cages
    and rod.
  - Methods: `load_dicom`, `on_click` (landmark and osteotomy-drawing
    branches), `update_measurements`, `draw_osteotomy`,
    `draw_complete_osteotomy`, `apply_osteotomy` (the `applied` flags, and
    the stop at a Wedge whose warp divides by zero),
    accepting a simulation, `reset_osteotomy`, `delete_implant`,
    `generate_rod_model` and `copy_to_clipboard`.
  - Each method's frame names the fields it may change. Its postcondition
    gives their new values in terms of the specification functions above.

The three versions share one class. `FirstDraft.py` and `SFP-Ver0.1.py` have no
osteotomy, simulation or implant state. Their `on_click` is the landmark branch
(`PlaceLandmark`), reached only with a landmark selected. Their
`copy_to_clipboard` is `CopyBaselineToClipboard`.

Facts about the code that the model keeps as they are:

- Every version reads a single `hip` landmark for the femoral head
  (SFP-Ver0.2.py:179, 1414). There is no fit of a circle to edge points.
- Only `update_correction_label` applies the x0.8 for the `Open` technique
  (SFP-Ver0.2.py:2068). `draw_complete_osteotomy` stores the undiscounted
  value (`Corrections.PreviewVersusStored`).
- When the femoral head sits on the S1 midpoint, or the two S1 points
  coincide, the pelvic incidence divides 0 by 0 and the label reads `nan°`.
  The model keeps that as `NotANumber`
  (`Engine.IncidenceNaNOnCoincidentPoints`).
- `on_click` truncates the image coordinates of a click with `int()`
  (SFP-Ver0.2.py:732-733, `Planner.Trunc`).
- A Wedge osteotomy whose points all lie in one image column makes
  `apply_osteotomy` divide by zero part-way through its loop
  (SFP-Ver0.2.py:1607). The model stops the loop there
  (`Planner.Session.ApplyOsteotomy`).
- Two quirks are modelled as written:
  - the T1-slope rule compares level strings lexicographically, so T10 to T12
    qualify and T5 to T9 do not;
  - corrections reach the simulated dict only once a simulation has been
    accepted (`is_simulated`), so the first `apply_osteotomy` shows
    uncorrected simulated values.

## Model

| member | source | states |
|---|---|---|
| Engine.Measure | SFP-Ver0.1.py:946-1043 | A parameter is `--` exactly when one of its own required landmarks is missing. A value is in millimetres exactly for the two SVAs. Only the pelvic incidence can be NaN. The two lordoses, the two SVAs and the pelvic tilt are never negative. |
| Engine.Snapshot | FirstDraft.py:733-775 | Nine entries in dict order; entry i is `--` exactly when parameter i lacks one of its landmarks. |
| Engine.BlankLabels | SFP-Ver0.2.py:432-460 | The dict as built at start-up: the nine names in order, every label `--`. |
| Engine.NamesInOrder | SFP-Ver0.2.py:432-434 | Each parameter's name sits at its position in the measurement-name list. |
| Engine.EmptySnapshotIsBlank | SFP-Ver0.1.py:421-425 | After the landmarks are cleared, recomputing gives nine `--`. |
| Engine.MeasureIsLocal | SFP-Ver0.1.py:946-1043 | A parameter depends only on its own landmark keys: two stores that agree on them give it the same result. |
| Engine.UnrelatedLandmarkKeepsMeasure | SFP-Ver0.1.py:502-507 | Placing a landmark a parameter does not use leaves that parameter unchanged. |
| Engine.EndplateAngleTranslationInvariant | SFP-Ver0.1.py:922-928 | `calculate_angle` depends only on the point deltas: moving both points by the same offset does not change it. |
| Engine.EndplateAngleScale | SFP-Ver0.1.py:922-928 | Scaling both spacings by k > 0 does not change `calculate_angle` (atan2 sees only a direction). |
| Engine.LordosisSwapSymmetric | FirstDraft.py:735-751 | A lordosis `abs(a - b)` is non-negative and unchanged when the two endplates are swapped. |
| Engine.LordosisScale | SFP-Ver0.1.py:957-963 | A lordosis is unchanged by a uniform recalibration. |
| Engine.HorizontalDistanceProperties | SFP-Ver0.1.py:968-972 | An SVA is non-negative and symmetric in its two points. It ignores y coordinates and row spacing, and is linear in column spacing. |
| Engine.SvaScale | FirstDraft.py:775 | A uniform recalibration by k scales the SVA by k. |
| Engine.CbvaScale | SFP-Ver0.1.py:948-951 | The chin-brow angle is unchanged by a uniform recalibration. |
| Engine.HipToSacrumScale | SFP-Ver0.2.py:1416-1417 | The calibrated hip-to-S1-midpoint vector scales with the spacing. |
| Engine.PelvicTiltScale | SFP-Ver0.1.py:1006-1017 | The pelvic tilt is unchanged by a uniform recalibration. |
| Engine.NormScale | SFP-Ver0.2.py:1424 | With a homogeneous square root, scaling a vector by k > 0 scales its norm by k. |
| Engine.DotScale | SFP-Ver0.2.py:1424 | Scaling both vectors by k scales their dot product by k * k. |
| Engine.NormProductScale | SFP-Ver0.2.py:1424 | Scaling both vectors by k > 0 scales the product of their norms by k * k. |
| Engine.IncidenceOfPartsScale | SFP-Ver0.2.py:1424-1427 | Scaling the cosine's numerator and denominator by the same k > 0 changes neither the NaN case nor the angle. |
| Engine.IncidenceFromScale | SFP-Ver0.2.py:1418-1427 | The pelvic incidence of two vectors is unchanged when both are scaled by k > 0. |
| Engine.IncidenceScale | SFP-Ver0.2.py:1414-1431 | The pelvic incidence is unchanged by a uniform recalibration, NaN included. |
| Engine.MeasureScale | SFP-Ver0.2.py:1383-1432 | Multiplying both spacings by k > 0 scales every millimetre result by k and leaves every angle, every NaN and every `--` unchanged, the pelvic incidence included. |
| Engine.SnapshotScale | FirstDraft.py:726-775 | The same, entry by entry over the whole snapshot. |
| Engine.IncidenceOfPartsInRange | SFP-Ver0.2.py:1424-1426 | With the cosine clipped to [-1, 1] and acos in [0, 180], the fold `min(pi, 180 - pi)` lies in [0, 90]. |
| Engine.IncidenceInRange | FirstDraft.py:765-767 | A numeric pelvic incidence always lies in [0, 90]. |
| Engine.IncidenceNaNIffDegenerate | SFP-Ver0.2.py:1421-1424 | The incidence is NaN exactly when the hip vector or the S1 endplate vector is zero. |
| Engine.IncidenceNaNOnCoincidentPoints | SFP-Ver0.1.py:1006-1029 | With positive spacing, the incidence is NaN exactly when the femoral head sits on the S1 midpoint or the two S1 points coincide. |
| Engine.SacralSlopeExample | SFP-Ver0.2.py:1412 | A worked example: the slope of a given S1 endplate, and no pelvic tilt without a `hip` point. |
| Corrections.ExpectedCorrection | SFP-Ver0.2.py:1547-1557 | The stored correction, kind by kind: 10 or 7 per SPO level, 30 or 21 for a PSO, 45 or 31.5 for a VCR, the first for a "Symmetric" side and the second for any other. |
| Corrections.PreviewVersusStored | SFP-Ver0.2.py:2053-2068 | The preview label equals the stored correction, except for an "Open" technique, where it is 0.8 times the stored value. |
| Corrections.ExpectedCorrectionBounds | SFP-Ver0.2.py:216 | With the spinbox's 1 to 6 levels, a stored correction lies in [7, 60]. A PSO stores 30 or 21, a VCR 45 or 31.5. |
| Corrections.T1SlopeLevels | SFP-Ver0.2.py:1472-1474 | Under string order, T1 to T4 and T10 to T12 pass the `level <= "T4"` test and T5 to T9 fail it. |
| Corrections.T1SlopeAtT10AndT8 | SFP-Ver0.2.py:1472-1474 | A 30 degree PSO at T10 adds 18 degrees of T1 slope; one at T8 adds nothing. |
| Corrections.Applied | SFP-Ver0.2.py:1440 | The filtered list holds exactly the applied osteotomies and is no longer than the input. |
| Corrections.AppliedCount | SFP-Ver0.2.py:1440 | The filter keeps every copy of an applied osteotomy and no copy of any other. |
| Corrections.AppliedNone | SFP-Ver0.2.py:1440-1442 | With no applied osteotomy the filtered list is empty. |
| Corrections.FilterApplied | SFP-Ver0.2.py:1440 | The loop builds exactly the filtered list. |
| Corrections.TotalAppend | SFP-Ver0.2.py:1455-1497 | The accumulated total over two lists is the sum of their totals. |
| Corrections.TotalRemove | SFP-Ver0.2.py:1455-1497 | Removing one osteotomy from the list removes exactly its contribution from the total. |
| Corrections.TotalPermutation | SFP-Ver0.2.py:1455-1497 | The total depends only on the multiset of osteotomies, not on their order. |
| Corrections.SumRule | SFP-Ver0.2.py:1455-1497 | The inner loop's running sum equals the rule's total over the applied list. |
| Corrections.RuleOfCbva | SFP-Ver0.2.py:1465-1497 | "CBVA" falls through every branch of the chain. |
| Corrections.RuleOfCervical | SFP-Ver0.2.py:1477-1479 | Both cervical names take the cervical branch, so "C2–C7 SVA" never reaches the SVA branch. |
| Corrections.RuleOfSacralSlope | SFP-Ver0.2.py:1465-1497 | "Sacral Slope" falls through every branch. |
| Corrections.RuleOfPelvicTilt | SFP-Ver0.2.py:1493-1497 | "Pelvic Tilt" takes the pelvic-tilt branch. |
| Corrections.RuleOfIncidence | SFP-Ver0.2.py:1465-1497 | "PI (vector)" falls through every branch. |
| Corrections.RuleOfSva | SFP-Ver0.2.py:1482-1490 | "SVA" takes the SVA branch. |
| Corrections.RuleTable | SFP-Ver0.2.py:1465-1497 | The branch each of the nine names takes. CBVA, sacral slope and PI take none. |
| Corrections.NoCervicalMarker | SFP-Ver0.2.py:1477 | A name without the letter C passes neither `"C2" in name` nor `"C7" in name`. |
| Corrections.ContributionSigns | SFP-Ver0.2.py:1465-1497 | For a non-negative correction: a lumbar-lordosis contribution is at least 0, and an SVA or pelvic-tilt contribution is at most 0. |
| Corrections.TotalSigns | SFP-Ver0.2.py:1455-1497 | With non-negative corrections, the applied osteotomies can only raise the lumbar lordosis and only lower the SVA and the pelvic tilt. |
| Corrections.TotalZero | SFP-Ver0.2.py:1455-1497 | A name that takes no branch collects a total of 0. |
| Corrections.PresetsNotCervical | SFP-Ver0.2.py:209 | No level the combobox offers starts with "C". |
| Corrections.CervicalPresetsUnmoved | SFP-Ver0.2.py:1477-1479 | An osteotomy at a preset level contributes nothing to the cervical measurements. |
| Corrections.TwoLumbarPsos | SFP-Ver0.2.py:1465-1486 | Two symmetric lumbar PSOs add 60 degrees of lumbar lordosis and take 150 mm off the SVA. |
| Corrections.CorrectedEntry | SFP-Ver0.2.py:1445-1511 | For one label: `--`, unparsable text and a zero total leave it unchanged. Degrees move by the total. Millimetres become max(0, value + total), so they are never negative. A NaN in degrees stays NaN; a NaN in millimetres becomes 0 mm, since max(0, nan) is 0. |
| Corrections.CorrectedLabels | SFP-Ver0.2.py:1438-1511 | A whole dict keeps its names and order. Every label is corrected by the total of its name's rule over the applied osteotomies. |
| Corrections.NothingAppliedNothingChanges | SFP-Ver0.2.py:1440-1442 | With no applied osteotomy, the dict is unchanged. |
| Corrections.AppliedEmpty | SFP-Ver0.2.py:1441-1442 | The early return agrees with the rules: an empty applied list changes nothing. |
| Corrections.CorrectionKeepsUntouched | SFP-Ver0.2.py:1465-1497 | CBVA, sacral slope and PI keep their labels through a correction pass. |
| Corrections.CorrectionOrderFree | SFP-Ver0.2.py:1444-1497 | The corrected dict does not depend on the order in which the osteotomies were drawn. |
| Corrections.ApplyCorrections | SFP-Ver0.2.py:1438-1511 | The loops of `apply_osteotomy_corrections` produce exactly `CorrectedLabels`. |
| Report.ShowBlankIff | SFP-Ver0.1.py:453 | A label reads `--` exactly when no value was computed for it: a rendered number always ends in its unit. |
| Report.Shown | SFP-Ver0.1.py:452-454 | The rows that reach the text are exactly those that do not read `--`, and there are no more of them than rows. |
| Report.ReportIsShownLines | SFP-Ver0.1.py:451-454 | The clipboard text is exactly one `name: text` line per non-`--` row, in dict order. |
| Report.ReportAppend | FirstDraft.py:336-339 | The text of two consecutive runs of rows is the concatenation of their texts. |
| Report.ReportOfBlank | FirstDraft.py:336-339 | A dict with nothing measured copies as the empty text. |
| Report.ReportIgnoresBlankRows | SFP-Ver0.1.py:452-454 | Two dicts with the same non-`--` rows copy alike. |
| Report.SessionReportBlocks | SFP-Ver0.2.py:691-701 | Before acceptance the text is the baseline block under its header. The baseline block always comes first, and after acceptance the simulated block follows it under its own header. |
| Report.FreshSessionReport | SFP-Ver0.2.py:691-695 | A fresh session copies only the baseline header. |
| Report.AppendLines | SFP-Ver0.2.py:693-695 | The loop appends exactly the report text of the dict to the text built so far. |
| Planner.Trunc | SFP-Ver0.2.py:732-733 | `int()` truncates toward zero: the result is within one of the real, on the side of zero. |
| Planner.ImageCoordinateInRange | SFP-Ver0.2.py:732-736 | A click maps inside an image dimension exactly when it falls inside the image on the canvas or less than one zoom step before its edge. |
| Planner.AllApplied | SFP-Ver0.2.py:1579-1689 | Marking keeps the list's length and every descriptor's other fields, and sets every flag. |
| Planner.AllAppliedSettles | SFP-Ver0.2.py:1579-1689 | After marking, nothing is pending and marking again changes nothing. The filter of applied osteotomies then keeps the whole list. |
| Planner.AppliedAll | SFP-Ver0.2.py:1440 | A list applied throughout passes the filter unchanged. |
| Planner.Blanked | SFP-Ver0.2.py:1824-1825 | Every label is reset to `--` under its own name. |
| Planner.BlankedWellNamed | SFP-Ver0.2.py:1824-1825 | Blanking the simulated dict gives back the dict built at start-up. |
| Planner.Heads | SFP-Ver0.2.py:1849 | The screw heads, in list order. |
| Planner.InsertByYSorted | SFP-Ver0.2.py:1850 | Inserting one point into a y-sorted list keeps it sorted and adds exactly that point. |
| Planner.SortByYCorrect | SFP-Ver0.2.py:1849-1853 | The rod points are a permutation of the screw heads in non-decreasing y. |
| Planner.Session.constructor | SFP-Ver0.2.py:38-81 | The start-up state: no image, zoom 0.1, unit spacing, no landmarks or osteotomies or implants, both dicts `--`. |
| Planner.Session.SetCurrentLandmark | SFP-Ver0.2.py:638-639 | The named landmark becomes the selection. |
| Planner.Session.UpdateMeasurements | SFP-Ver0.2.py:1383-1436 | The baseline dict becomes the current snapshot. The simulated dict becomes the snapshot, corrected only when a simulation has been accepted. The other dict is unchanged. |
| Planner.Session.LoadDicom | SFP-Ver0.2.py:646-680 | A cancelled dialog changes nothing. Otherwise the image becomes both displayed and original, and the spacing comes from the file or defaults to 1 mm. The view, landmarks and label positions are reset, and the baseline dict becomes nine `--`. The same code is at SFP-Ver0.1.py:389-432 and FirstDraft.py:291-325. |
| Planner.Session.Reload | SFP-Ver0.2.py:655-673 | The reset part of `load_dicom`: the new image becomes both displayed and original, the spacing comes from the file or defaults to 1 mm, and the view, landmarks and label positions are cleared. |
| Planner.Session.PlaceLandmark | SFP-Ver0.2.py:730-741 | A click inside a loaded image stores the selected landmark there, overwriting any earlier point of that name and keeping the other keys. It clears the selection and recomputes the baseline dict. Any other click changes nothing. The earlier versions' `on_click` (SFP-Ver0.1.py:494-507, FirstDraft.py:360-373) is this branch alone. |
| Planner.Session.AddOsteotomyPoint | SFP-Ver0.2.py:742-755 | The point is appended. At 2 points ("Open") or 4 (otherwise), the osteotomy is completed and appended to the list. |
| Planner.Session.OnClick | SFP-Ver0.2.py:729-757 | A selected landmark takes precedence over drawing. Each branch's effect is stated on the old state, and neither branch touches the other's fields. |
| Planner.Session.DrawOsteotomy | SFP-Ver0.2.py:1513-1529 | The points are cleared. Drawing starts exactly for "Wedge", "Resect" or "Open". |
| Planner.Session.DrawCompleteOsteotomy | SFP-Ver0.2.py:1531-1561 | A new unapplied descriptor is appended with the drawn points and the expected correction. The points are cleared and drawing ends. |
| Planner.FirstFailure | SFP-Ver0.2.py:1579-1607 | The index the loop stops at: no descriptor before it stops the loop, and the one at it (if any) is a pending Wedge whose warp raises. |
| Planner.FirstFailureAt | SFP-Ver0.2.py:1579-1607 | Any index with no stop before it and a stop at it (or the end of the list) is where the loop stops. |
| Planner.MarkNext | SFP-Ver0.2.py:1579-1689 | One loop step marks exactly descriptor i, and the prefix gains a pending descriptor exactly when i was pending. |
| Planner.MarkInOrder | SFP-Ver0.2.py:1579-1689 | The loop marks every descriptor before the stop, leaves the rest as they were, reports whether it stopped, and reports whether it marked a pending one. |
| Planner.FailureBlocks | SFP-Ver0.2.py:1579-1607 | After a run stopped at a raising Wedge, the next run stops at the same descriptor: the Wedge blocks every later apply until a reset. |
| Planner.Session.ApplyOsteotomy | SFP-Ver0.2.py:1566-1701 | Nothing happens without an osteotomy or an image. Otherwise the simulated image restarts from the original and the descriptors before the first raising Wedge are marked, the rest kept. `raised` holds exactly when there is such a Wedge. The simulated dict is recomputed exactly when the loop got through and one descriptor was pending. |
| Planner.Session.AcceptSimulation | SFP-Ver0.2.py:1807-1809 | The simulated image is displayed and corrections are switched on. |
| Planner.Session.ResetOsteotomy | SFP-Ver0.2.py:1816-1830 | The osteotomy points and list are emptied, and drawing and simulation end. Every simulated label becomes `--`, and the original image, when loaded, is shown again. |
| Planner.Session.DeleteImplant | SFP-Ver0.2.py:869-876 | Entry `index` of the chosen list is removed when it exists. An out-of-range index changes nothing. |
| Planner.Session.GenerateRodModel | SFP-Ver0.2.py:1842-1861 | Nothing happens without screws. Otherwise the rod's points are the screw heads sorted by y, a permutation in non-decreasing y, with the chosen side and diameter. |
| Planner.Session.CopyToClipboard | SFP-Ver0.2.py:689-701 | The copied text is the session report: the baseline block, then the simulated block once accepted. |
| Planner.Session.CopyBaselineToClipboard | SFP-Ver0.1.py:447-455 | The copied text is the report text of the baseline dict. The same loop is at FirstDraft.py:334-339. |

## Left out

- Numeric values of `atan2`, `acos`, `degrees` and the square root. These are floating point. They are a parameter, constrained only by the laws each lemma states.
- Floating-point behaviour of the arithmetic. Reals stand for Python floats, so rounding is not modelled.
- The `:.2f` formatting and the `rstrip`/`float()` parsing. A label holds a typed entry, and the rendering of a number is a parameter of the clipboard functions. After a correction pass, the source writes millimetre labels as `12.00mm` without the space. The model does not capture that text difference.
- DICOM decoding, pixel normalisation and the contrast slider (pydicom, numpy, PIL). A loaded file is its image size and its optional pixel spacing. A cancelled dialog, or a file that fails to decode, is `None`.
- Planner.Session.LoadDicom: does not model an exception raised after the image is stored, for example a `PixelSpacing` value `float()` rejects. The source would keep that partial state.
- The image warping inside `apply_osteotomy`, a numpy raster mutation. The simulated image is modelled by its size, which the warp does not change.
- Planner.Session.ApplyOsteotomy: `simulatedImage == originalImage` states only that the simulated image has the original's size. Its pixels are not modelled. The only raise modelled is the Wedge in one column. A level count typed outside the spinbox's 1 to 6 can give a Wedge a negative shift and a row index beyond the image, which numpy would also reject; that case is not modelled.
- The simulation window, message boxes, canvas drawing, label dragging, zoom and pan (`display_image`, `draw_*`, `*_drag_label`, `on_zoom`, `on_pan`, `show_simulation_window`). These are presentation. Zoom and offset appear only as the state a click is mapped through.
- `simulate_measurements`. Nothing in the modelled code calls it.
- The screw- and cage-placement branches of `on_click`, `place_screw` and `place_cage`. They read free-text entry widgets with `float()` and only append to the implant lists. The lists themselves, `delete_implant` and the rod are modelled.
- STL export and the spline rod drawing (scipy, numpy-stl), and the screenshot capture (GDI, ImageGrab).
- The clipboard library call (`pyperclip`). The methods return the text that would be copied.
- Planner.SortByYCorrect: states sortedness and permutation but not stability. The insertion keeps equal heights in list order, as `list.sort` does, but that is not proved.
