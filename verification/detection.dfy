/** The per-frame rules of the detection service: box overlap, the largest
    IoU among the kept boxes, the filtering and counting of detections, the
    single-frame accident and severity ladders, and the rule-based injury
    report. Detections are the object detector's output, taken as input;
    coordinates and scores are exact reals. Severities are strings, as in
    the service. */
module Detection {
  import opened Common

  const ConfThresh: real := 0.3
  const DangerClasses: set<string> := {"person", "car", "truck", "motorcycle", "bus"}
  const VehicleClasses: set<string> := {"car", "truck", "motorcycle", "bus"}
  const PersonClasses: set<string> := {"person"}

  /** An axis-aligned box (x1, y1, x2, y2). */
  datatype Box = Box(xMin: real, yMin: real, xMax: real, yMax: real)

  /** One detection: class name, confidence score and box. */
  datatype Detection = Detection(cls: string, score: real, box: Box)

  function Max(a: real, b: real): real { if a >= b then a else b }
  function Min(a: real, b: real): real { if a <= b then a else b }

  // ---------------------------------------------------------------------
  // boxes_overlap
  // ---------------------------------------------------------------------

  function BoxesOverlap(a: Box, b: Box): bool
  {
    if a.xMax < b.xMin || b.xMax < a.xMin then false
    else if a.yMax < b.yMin || b.yMax < a.yMin then false
    else true
  }

  predicate WellFormed(b: Box)
  {
    b.xMin <= b.xMax && b.yMin <= b.yMax
  }

  /** The point lies in the closed box (edges included). */
  predicate Contains(b: Box, x: real, y: real)
  {
    b.xMin <= x <= b.xMax && b.yMin <= y <= b.yMax
  }

  lemma OverlapSymmetric(a: Box, b: Box)
    ensures BoxesOverlap(a, b) == BoxesOverlap(b, a)
  {
  }

  /** Two well-formed boxes overlap exactly when some point lies in both of
      them; boxes that only touch along an edge or at a corner overlap. */
  lemma OverlapIffSharedPoint(a: Box, b: Box)
    requires WellFormed(a) && WellFormed(b)
    ensures BoxesOverlap(a, b) <==> exists x, y :: Contains(a, x, y) && Contains(b, x, y)
  {
    if BoxesOverlap(a, b) {
      var x := Max(a.xMin, b.xMin);
      var y := Max(a.yMin, b.yMin);
      assert Contains(a, x, y) && Contains(b, x, y);
    }
  }

  // ---------------------------------------------------------------------
  // compute_max_overlap_ratio
  // ---------------------------------------------------------------------

  /** max(0.0, v) */
  function Pos(v: real): real { if v > 0.0 then v else 0.0 }

  function Area(b: Box): real
  {
    Pos(b.xMax - b.xMin) * Pos(b.yMax - b.yMin)
  }

  function Intersection(a: Box, b: Box): real
  {
    Pos(Min(a.xMax, b.xMax) - Max(a.xMin, b.xMin)) * Pos(Min(a.yMax, b.yMax) - Max(a.yMin, b.yMin))
  }

  /** The IoU the inner loop considers for one pair; 0 for every pair the
      loop skips (an empty box, no intersection, a non-positive union). */
  function PairRatio(a: Box, b: Box): real
  {
    var inter := Intersection(a, b);
    var union := Area(a) + Area(b) - inter;
    if Area(a) <= 0.0 || Area(b) <= 0.0 || inter <= 0.0 || union <= 0.0 then 0.0
    else inter / union
  }

  lemma MulMono(a: real, b: real, c: real, d: real)
    requires 0.0 <= a <= c && 0.0 <= b <= d
    ensures a * b <= c * d
  {
    assert a * b <= c * b;
    assert c * b <= c * d;
  }

  lemma IntersectionWithin(a: Box, b: Box)
    ensures 0.0 <= Intersection(a, b) <= Area(a)
    ensures Intersection(a, b) <= Area(b)
  {
    var iw := Pos(Min(a.xMax, b.xMax) - Max(a.xMin, b.xMin));
    var ih := Pos(Min(a.yMax, b.yMax) - Max(a.yMin, b.yMin));
    MulMono(iw, ih, Pos(a.xMax - a.xMin), Pos(a.yMax - a.yMin));
    MulMono(iw, ih, Pos(b.xMax - b.xMin), Pos(b.yMax - b.yMin));
  }

  /** Every ratio the loop can record is an IoU in [0, 1]. */
  lemma PairRatioInUnit(a: Box, b: Box)
    ensures 0.0 <= PairRatio(a, b) <= 1.0
  {
    IntersectionWithin(a, b);
    var inter := Intersection(a, b);
    var union := Area(a) + Area(b) - inter;
    if !(Area(a) <= 0.0 || Area(b) <= 0.0 || inter <= 0.0 || union <= 0.0) {
      assert inter <= union;
      QuotientAtMostOne(inter, union);
    }
  }

  lemma QuotientAtMostOne(a: real, b: real)
    requires 0.0 < b && 0.0 <= a <= b
    ensures 0.0 <= a / b <= 1.0
  {
    var q := a / b;
    assert q * b == a;
    assert (1.0 - q) * b == b - a;
  }

  /** The largest ratio of `b` against each box of `ps` (0 for none). */
  function MaxAgainst(ps: seq<Box>, b: Box): real
    decreases |ps|
  {
    if ps == [] then 0.0 else Max(MaxAgainst(ps[..|ps| - 1], b), PairRatio(ps[|ps| - 1], b))
  }

  /** The largest ratio over all pairs of boxes (0 when there is no pair). */
  function MaxPairRatio(bs: seq<Box>): real
    decreases |bs|
  {
    if bs == [] then 0.0 else Max(MaxPairRatio(bs[..|bs| - 1]), MaxAgainst(bs[..|bs| - 1], bs[|bs| - 1]))
  }

  /** `r` is at least every pair's ratio and is either 0 or one of them. */
  ghost predicate IsMaxRatio(bs: seq<Box>, r: real)
  {
    && 0.0 <= r
    && (forall p, q :: 0 <= p < q < |bs| ==> PairRatio(bs[p], bs[q]) <= r)
    && (r == 0.0 || exists p, q :: 0 <= p < q < |bs| && r == PairRatio(bs[p], bs[q]))
  }

  lemma {:induction false} MaxAgainstSpec(ps: seq<Box>, b: Box)
    ensures 0.0 <= MaxAgainst(ps, b)
    ensures forall p :: 0 <= p < |ps| ==> PairRatio(ps[p], b) <= MaxAgainst(ps, b)
    ensures MaxAgainst(ps, b) == 0.0 || exists p :: 0 <= p < |ps| && MaxAgainst(ps, b) == PairRatio(ps[p], b)
    decreases |ps|
  {
    if ps != [] {
      var init := ps[..|ps| - 1];
      MaxAgainstSpec(init, b);
      forall p | 0 <= p < |ps| ensures PairRatio(ps[p], b) <= MaxAgainst(ps, b) {
        if p < |init| { assert ps[p] == init[p]; }
      }
      if MaxAgainst(ps, b) != 0.0 && MaxAgainst(ps, b) != PairRatio(ps[|ps| - 1], b) {
        var p :| 0 <= p < |init| && MaxAgainst(init, b) == PairRatio(init[p], b);
        assert ps[p] == init[p];
      }
    }
  }

  /** MaxPairRatio is at least 0 and at least every pair's ratio. */
  lemma {:induction false} MaxPairRatioBounds(bs: seq<Box>)
    ensures 0.0 <= MaxPairRatio(bs)
    ensures forall p, q :: 0 <= p < q < |bs| ==> PairRatio(bs[p], bs[q]) <= MaxPairRatio(bs)
    decreases |bs|
  {
    if bs != [] {
      var init := bs[..|bs| - 1];
      var last := bs[|bs| - 1];
      var m := MaxPairRatio(bs);
      MaxPairRatioBounds(init);
      MaxAgainstSpec(init, last);
      forall p, q | 0 <= p < q < |bs| ensures PairRatio(bs[p], bs[q]) <= m {
        assert bs[p] == init[p];
        if q < |init| { assert bs[q] == init[q]; } else { assert bs[q] == last; }
      }
    }
  }

  /** MaxPairRatio is 0 or the ratio of some pair. */
  lemma {:induction false} MaxPairRatioAttained(bs: seq<Box>)
    ensures MaxPairRatio(bs) == 0.0 || exists p, q :: 0 <= p < q < |bs| && MaxPairRatio(bs) == PairRatio(bs[p], bs[q])
    decreases |bs|
  {
    if bs != [] {
      var init := bs[..|bs| - 1];
      var last := bs[|bs| - 1];
      var m := MaxPairRatio(bs);
      if m != 0.0 {
        if m == MaxPairRatio(init) {
          MaxPairRatioAttained(init);
          var p, q :| 0 <= p < q < |init| && m == PairRatio(init[p], init[q]);
          assert bs[p] == init[p] && bs[q] == init[q];
        } else {
          MaxAgainstSpec(init, last);
          var p :| 0 <= p < |init| && m == PairRatio(init[p], last);
          assert bs[p] == init[p] && bs[|bs| - 1] == last;
        }
      }
    }
  }

  /** MaxPairRatio is the maximum pair ratio, or 0 when no pair has a
      positive one. */
  lemma MaxPairRatioIsMax(bs: seq<Box>)
    ensures IsMaxRatio(bs, MaxPairRatio(bs))
  {
    MaxPairRatioBounds(bs);
    MaxPairRatioAttained(bs);
  }

  /** MaxPairRatio lies in [0, 1], and is 0 when there are fewer than two
      boxes. */
  lemma MaxPairRatioSpec(bs: seq<Box>)
    ensures IsMaxRatio(bs, MaxPairRatio(bs))
    ensures MaxPairRatio(bs) <= 1.0
    ensures |bs| < 2 ==> MaxPairRatio(bs) == 0.0
  {
    MaxPairRatioIsMax(bs);
    var m := MaxPairRatio(bs);
    if m != 0.0 {
      var p, q :| 0 <= p < q < |bs| && m == PairRatio(bs[p], bs[q]);
      PairRatioInUnit(bs[p], bs[q]);
    }
  }

  /** Only one value is the maximum ratio. */
  lemma MaxRatioUnique(bs: seq<Box>, r: real, s: real)
    requires IsMaxRatio(bs, r) && IsMaxRatio(bs, s)
    ensures r == s
  {
    if r != 0.0 {
      var p, q :| 0 <= p < q < |bs| && r == PairRatio(bs[p], bs[q]);
      assert r <= s;
    }
    if s != 0.0 {
      var p, q :| 0 <= p < q < |bs| && s == PairRatio(bs[p], bs[q]);
      assert s <= r;
    }
  }

  /** The inner loop of compute_max_overlap_ratio for row `i`: raises `r`
      to the ratio of boxes[i] against every later box, skipping a pair
      whose second box is empty, whose intersection is empty or whose union
      is not positive. */
  method ScanRow(boxes: seq<Box>, i: nat, r0: real) returns (r: real)
    requires i < |boxes| && 0.0 <= r0 <= 1.0
    requires Area(boxes[i]) > 0.0
    ensures 0.0 <= r <= 1.0 && r0 <= r
    ensures forall q :: i < q < |boxes| ==> PairRatio(boxes[i], boxes[q]) <= r
    ensures r == r0 || exists q :: i < q < |boxes| && r == PairRatio(boxes[i], boxes[q])
  {
    var n := |boxes|;
    var b1 := boxes[i];
    var area1 := Area(b1);
    r := r0;
    var j := i + 1;
    while j < n
      invariant i + 1 <= j <= n
      invariant 0.0 <= r <= 1.0 && r0 <= r
      invariant forall q :: i < q < j ==> PairRatio(b1, boxes[q]) <= r
      invariant r == r0 || exists q :: i < q < n && r == PairRatio(b1, boxes[q])
    {
      var b2 := boxes[j];
      var area2 := Area(b2);
      if area2 <= 0.0 {
        j := j + 1;
        continue;
      }
      var inter := Intersection(b1, b2);
      if inter <= 0.0 {
        j := j + 1;
        continue;
      }
      var union := area1 + area2 - inter;
      if union <= 0.0 {
        j := j + 1;
        continue;
      }
      var ratio := inter / union;
      assert ratio == PairRatio(b1, b2);
      PairRatioInUnit(b1, b2);
      if ratio > r {
        r := ratio;
      }
      j := j + 1;
    }
  }

  /** compute_max_overlap_ratio: the largest IoU among all pairs of boxes,
      0 for fewer than two boxes, always in [0, 1]. */
  method MaxOverlapRatio(boxes: seq<Box>) returns (r: real)
    ensures 0.0 <= r <= 1.0
    ensures |boxes| < 2 ==> r == 0.0
    ensures forall p, q :: 0 <= p < q < |boxes| ==> PairRatio(boxes[p], boxes[q]) <= r
    ensures r == 0.0 || exists p, q :: 0 <= p < q < |boxes| && r == PairRatio(boxes[p], boxes[q])
    ensures r == MaxPairRatio(boxes)
  {
    var n := |boxes|;
    if n < 2 {
      MaxPairRatioSpec(boxes);
      return 0.0;
    }
    r := 0.0;
    var i := 0;
    while i < n
      invariant 0 <= i <= n
      invariant 0.0 <= r <= 1.0
      invariant forall p, q :: 0 <= p < i && p < q < n ==> PairRatio(boxes[p], boxes[q]) <= r
      invariant r == 0.0 || exists p, q :: 0 <= p < q < n && r == PairRatio(boxes[p], boxes[q])
    {
      var area1 := Area(boxes[i]);
      if area1 <= 0.0 {
        i := i + 1;
        continue;
      }
      r := ScanRow(boxes, i, r);
      i := i + 1;
    }
    MaxPairRatioSpec(boxes);
    MaxRatioUnique(boxes, r, MaxPairRatio(boxes));
  }

  // ---------------------------------------------------------------------
  // Filtering and counting of one frame's detections
  // ---------------------------------------------------------------------

  predicate Kept(d: Detection)
  {
    d.score >= ConfThresh
  }

  /** The boxes of the kept detections, in detector order. */
  function KeptBoxes(ds: seq<Detection>): seq<Box>
    decreases |ds|
  {
    if ds == [] then []
    else KeptBoxes(ds[..|ds| - 1]) + (if Kept(ds[|ds| - 1]) then [ds[|ds| - 1].box] else [])
  }

  /** How many kept detections have a class in `classes`. */
  function CountKept(ds: seq<Detection>, classes: set<string>): nat
    decreases |ds|
  {
    if ds == [] then 0
    else CountKept(ds[..|ds| - 1], classes) + (if Kept(ds[|ds| - 1]) && ds[|ds| - 1].cls in classes then 1 else 0)
  }

  /** The class of the first kept detection whose class is in `classes`. */
  function FirstKept(ds: seq<Detection>, classes: set<string>): Option<string>
    decreases |ds|
  {
    if ds == [] then None
    else if FirstKept(ds[..|ds| - 1], classes).Some? then FirstKept(ds[..|ds| - 1], classes)
    else if Kept(ds[|ds| - 1]) && ds[|ds| - 1].cls in classes then Some(ds[|ds| - 1].cls)
    else None
  }

  ghost predicate AnyOverlap(bs: seq<Box>)
  {
    exists p, q :: 0 <= p < q < |bs| && BoxesOverlap(bs[p], bs[q])
  }

  /** What the counting loop learns about one frame. */
  datatype FrameStats = FrameStats(
    danger: nat,
    vehicles: nat,
    persons: nat,
    collision: bool,
    primaryVehicle: Option<string>,
    boxes: seq<Box>)

  ghost function Stats(ds: seq<Detection>): FrameStats
  {
    FrameStats(
      CountKept(ds, DangerClasses), CountKept(ds, VehicleClasses), CountKept(ds, PersonClasses),
      AnyOverlap(KeptBoxes(ds)), FirstKept(ds, VehicleClasses), KeptBoxes(ds))
  }

  /** Every danger detection is a vehicle or a person, never both. */
  lemma {:induction false} DangerSplits(ds: seq<Detection>)
    ensures CountKept(ds, DangerClasses) == CountKept(ds, VehicleClasses) + CountKept(ds, PersonClasses)
    decreases |ds|
  {
    if ds != [] {
      DangerSplits(ds[..|ds| - 1]);
    }
  }

  /** The first kept vehicle's class is a vehicle class, and there is one
      exactly when some vehicle was counted. */
  lemma {:induction false} FirstKeptSpec(ds: seq<Detection>, classes: set<string>)
    ensures FirstKept(ds, classes).Some? <==> CountKept(ds, classes) > 0
    ensures FirstKept(ds, classes).Some? ==> FirstKept(ds, classes).value in classes
    decreases |ds|
  {
    if ds != [] {
      FirstKeptSpec(ds[..|ds| - 1], classes);
    }
  }

  /** A detection the loop would remember as the primary vehicle. */
  predicate KeptIn(d: Detection, classes: set<string>)
  {
    Kept(d) && d.cls in classes
  }

  /** The remembered class belongs to the first kept detection of a class in
      `classes`; with no such detection nothing is remembered. */
  lemma {:induction false} FirstKeptIsFirst(ds: seq<Detection>, classes: set<string>)
    ensures FirstKept(ds, classes).Some? ==>
      exists k :: 0 <= k < |ds| && KeptIn(ds[k], classes) && ds[k].cls == FirstKept(ds, classes).value
        && forall j :: 0 <= j < k ==> !KeptIn(ds[j], classes)
    ensures FirstKept(ds, classes).None? ==> forall j :: 0 <= j < |ds| ==> !KeptIn(ds[j], classes)
    decreases |ds|
  {
    if ds != [] {
      var n := |ds|;
      var init := ds[..n - 1];
      FirstKeptIsFirst(init, classes);
      if FirstKept(init, classes).Some? {
        var k :| 0 <= k < |init| && KeptIn(init[k], classes) && init[k].cls == FirstKept(init, classes).value
          && forall j :: 0 <= j < k ==> !KeptIn(init[j], classes);
        assert ds[k] == init[k];
        assert forall j :: 0 <= j < k ==> ds[j] == init[j];
      } else if KeptIn(ds[n - 1], classes) {
        assert forall j :: 0 <= j < n - 1 ==> ds[j] == init[j];
      } else {
        assert forall j :: 0 <= j < n - 1 ==> ds[j] == init[j];
      }
    }
  }

  /** The counting loop of one frame: keeps detections scoring at least 0.3,
      counts danger, vehicle and person classes among them, remembers the
      first kept vehicle's class, and looks for any overlapping pair of kept
      boxes. */
  method CountObjects(ds: seq<Detection>) returns (st: FrameStats)
    ensures st == Stats(ds)
    ensures st.danger == st.vehicles + st.persons
    ensures st.collision <==> exists p, q :: 0 <= p < q < |st.boxes| && BoxesOverlap(st.boxes[p], st.boxes[q])
  {
    var boxes: seq<Box> := [];
    var danger, vehicles, persons := 0, 0, 0;
    var primary: Option<string> := None;
    var i := 0;
    while i < |ds|
      invariant 0 <= i <= |ds|
      invariant boxes == KeptBoxes(ds[..i])
      invariant danger == CountKept(ds[..i], DangerClasses)
      invariant vehicles == CountKept(ds[..i], VehicleClasses)
      invariant persons == CountKept(ds[..i], PersonClasses)
      invariant primary == FirstKept(ds[..i], VehicleClasses)
    {
      assert ds[..i + 1][..i] == ds[..i];
      var d := ds[i];
      if d.score < ConfThresh {
        i := i + 1;
        continue;
      }
      boxes := boxes + [d.box];
      if d.cls in DangerClasses {
        danger := danger + 1;
      }
      if d.cls in VehicleClasses {
        vehicles := vehicles + 1;
        if primary.None? {
          primary := Some(d.cls);
        }
      }
      if d.cls in PersonClasses {
        persons := persons + 1;
      }
      i := i + 1;
    }
    assert ds[..i] == ds;
    DangerSplits(ds);

    var collision := false;
    var p := 0;
    while p < |boxes|
      invariant 0 <= p <= |boxes|
      invariant !collision ==> forall a, b :: 0 <= a < p && a < b < |boxes| ==> !BoxesOverlap(boxes[a], boxes[b])
      invariant collision ==> AnyOverlap(boxes)
    {
      var q := p + 1;
      while q < |boxes|
        invariant p + 1 <= q <= |boxes|
        invariant !collision
        invariant forall b :: p < b < q ==> !BoxesOverlap(boxes[p], boxes[b])
      {
        if BoxesOverlap(boxes[p], boxes[q]) {
          collision := true;
          break;
        }
        q := q + 1;
      }
      if collision {
        break;
      }
      p := p + 1;
    }
    st := FrameStats(danger, vehicles, persons, collision, primary, boxes);
  }

  /** The per-frame analysis both endpoints run: count the detections, then
      measure the strongest overlap among the kept boxes. */
  method AnalyzeFrame(ds: seq<Detection>) returns (st: FrameStats, ratio: real)
    ensures st == Stats(ds)
    ensures ratio == MaxPairRatio(st.boxes)
  {
    st := CountObjects(ds);
    ratio := MaxOverlapRatio(st.boxes);
  }

  // ---------------------------------------------------------------------
  // Single-frame accident decision and severity
  // ---------------------------------------------------------------------

  predicate IsAccidentFrame(st: FrameStats)
  {
    if st.collision && st.vehicles >= 2 then true
    else if st.collision && st.persons >= 1 then true
    else st.vehicles >= 1 && st.persons >= 1 && st.danger >= 3
  }

  function FrameSeverity(st: FrameStats): string
  {
    if st.collision && st.vehicles >= 2 then "CRITICAL"
    else if st.collision && st.persons >= 1 then "MAJOR"
    else if st.vehicles >= 1 && st.persons >= 2 then "MEDIUM"
    else "MINOR"
  }

  /** severity_order.get(severity, 1) */
  function SeverityScore(severity: string): int
  {
    if severity == "MINOR" then 1
    else if severity == "MEDIUM" then 2
    else if severity == "MAJOR" then 3
    else if severity == "CRITICAL" then 4
    else 1
  }

  function VictimsEstimated(st: FrameStats): int
  {
    if st.persons > 0 then st.persons else 1
  }

  /** The ladders agree: a MAJOR or CRITICAL frame is always an accident
      frame, and when the counts come from one frame (so danger detections
      are exactly the vehicles and persons) a MEDIUM frame is one as well.
      Scores order the four severities 1 to 4, and at least one victim is
      always estimated. */
  lemma FrameLadder(st: FrameStats)
    ensures FrameSeverity(st) in {"MINOR", "MEDIUM", "MAJOR", "CRITICAL"}
    ensures FrameSeverity(st) in {"MAJOR", "CRITICAL"} ==> IsAccidentFrame(st)
    ensures st.danger == st.vehicles + st.persons && FrameSeverity(st) != "MINOR" ==> IsAccidentFrame(st)
    ensures 1 <= SeverityScore(FrameSeverity(st)) <= 4
    ensures SeverityScore(FrameSeverity(st)) >= 3 <==> st.collision && (st.vehicles >= 2 || st.persons >= 1)
    ensures VictimsEstimated(st) >= 1 && VictimsEstimated(st) >= st.persons
  {
  }

  /** An accident frame can still be MINOR: two apart vehicles and one
      person, no overlap. */
  lemma MinorAccidentFrameExists()
    ensures exists st :: IsAccidentFrame(st) && FrameSeverity(st) == "MINOR" && st.danger == st.vehicles + st.persons
  {
    var st := FrameStats(3, 2, 1, false, Some("car"), []);
    assert IsAccidentFrame(st) && FrameSeverity(st) == "MINOR";
  }

  // ---------------------------------------------------------------------
  // build_expected_injury_report
  // ---------------------------------------------------------------------

  datatype Injury = Injury(region: string, risk: string)

  datatype InjuryReport = InjuryReport(
    priorityLevel: string,
    mechanismOfInjury: string,
    estimatedInjuries: seq<Injury>,
    estimatedVictims: int,
    posture: string,
    recommendedPreparation: seq<string>,
    summaryForDoctors: string)

  function PriorityLevel(severity: string): string
  {
    if severity == "CRITICAL" then "CRITICAL"
    else if severity == "MAJOR" then "HIGH"
    else if severity == "MEDIUM" then "MODERATE"
    else "LOW"
  }

  /** Python truthiness of an optional string: present and non-empty. */
  predicate Truthy(s: Option<string>)
  {
    s.Some? && s.value != ""
  }

  function MechanismParts(collision: bool, vehicleType: Option<string>, personCount: int): seq<string>
  {
    (if collision then ["collision detected"] else [])
    + (if Truthy(vehicleType) then ["involving a " + vehicleType.value] else [])
    + (if personCount > 0 then [DecimalString(personCount) + " person(s) in scene"] else [])
  }

  function Mechanism(collision: bool, vehicleType: Option<string>, personCount: int): string
  {
    var joined := Join(MechanismParts(collision, vehicleType, personCount), ", ");
    if joined == "" then "Road traffic accident" else joined
  }

  function Injuries(severity: string, victimCount: int): seq<Injury>
  {
    (if severity == "MAJOR" || severity == "CRITICAL" then
       [Injury("Head/Neck", "HIGH"), Injury("Chest", "MEDIUM"), Injury("Limbs", "MEDIUM")]
     else if severity == "MEDIUM" then
       [Injury("Head/Neck", "MEDIUM"), Injury("Limbs", "MEDIUM")]
     else
       [Injury("Head/Neck", "LOW"), Injury("Limbs", "LOW")])
    + (if victimCount >= 2 then [Injury("Pelvis/Spine", "MEDIUM")] else [])
  }

  function Preparation(priority: string): seq<string>
  {
    if priority == "HIGH" || priority == "CRITICAL" then
      ["Activate trauma team", "Prepare CT scan and X-ray", "Prepare IV fluids and blood units"]
    else if priority == "MODERATE" then
      ["Prepare emergency doctor and X-ray"]
    else
      ["Basic emergency assessment"]
  }

  /** The regions whose risk is HIGH or MEDIUM, in order. */
  function AtRiskRegions(injuries: seq<Injury>): seq<string>
    decreases |injuries|
  {
    if injuries == [] then []
    else (if injuries[0].risk == "HIGH" || injuries[0].risk == "MEDIUM" then [injuries[0].region] else [])
         + AtRiskRegions(injuries[1..])
  }

  /** The summary after its leading mechanism. */
  function SummaryTail(victimCount: int, injuries: seq<Injury>, prep: seq<string>): string
  {
    var regions := AtRiskRegions(injuries);
    var regionsText := if regions != [] then Join(regions, ", ") else "no major regions identified";
    " with " + DecimalString(victimCount) + " victim(s). "
    + "Estimated increased risk of injuries to: " + regionsText + ". "
    + "Recommended: " + Join(prep, ", ") + "."
  }

  function DoctorSummary(mechanism: string, victimCount: int, injuries: seq<Injury>, prep: seq<string>): string
  {
    mechanism + SummaryTail(victimCount, injuries, prep)
  }

  lemma JoinStartsWithFirst(parts: seq<string>, sep: string)
    requires |parts| >= 1 && |parts[0]| >= 1
    ensures |Join(parts, sep)| >= 1 && Join(parts, sep)[0] == parts[0][0]
  {
  }

  /** The mechanism falls back to "Road traffic accident" exactly when no
      collision, no vehicle and no person was seen: any observed part starts
      with 'c', 'i', a digit or '-', never with 'R'. */
  lemma MechanismFallback(collision: bool, vehicleType: Option<string>, personCount: int)
    ensures Mechanism(collision, vehicleType, personCount) == "Road traffic accident"
            <==> !collision && !Truthy(vehicleType) && personCount <= 0
  {
    var parts := MechanismParts(collision, vehicleType, personCount);
    if parts != [] {
      assert |parts[0]| >= 1;
      JoinStartsWithFirst(parts, ", ");
      var j := Join(parts, ", ");
      assert j[0] == 'c' || j[0] == 'i' || IsDigit(j[0]);
    }
  }

  /** The summary begins with the mechanism and is never blank. */
  lemma DoctorSummaryShape(mechanism: string, victimCount: int, injuries: seq<Injury>, prep: seq<string>)
    ensures |DoctorSummary(mechanism, victimCount, injuries, prep)| > |mechanism|
    ensures DoctorSummary(mechanism, victimCount, injuries, prep)[..|mechanism|] == mechanism
    ensures !IsBlank(DoctorSummary(mechanism, victimCount, injuries, prep))
  {
    var tail := SummaryTail(victimCount, injuries, prep);
    assert tail[1] == 'w';
    assert !IsBlank(tail);
    NonBlankConcat(mechanism, tail);
  }

  /** build_expected_injury_report. */
  function BuildInjuryReport(severity: string, vehicleType: Option<string>, victimCount: int,
                             collision: bool, personCount: int): (r: InjuryReport)
    ensures r.priorityLevel in {"CRITICAL", "HIGH", "MODERATE", "LOW"}
    ensures r.estimatedVictims == victimCount && r.posture == "unknown"
  {
    var priority := PriorityLevel(severity);
    var mechanism := Mechanism(collision, vehicleType, personCount);
    var injuries := Injuries(severity, victimCount);
    var prep := Preparation(priority);
    InjuryReport(priority, mechanism, injuries, victimCount, "unknown", prep, DoctorSummary(mechanism, victimCount, injuries, prep))
  }

  /** Priority follows severity: HIGH or CRITICAL exactly for a MAJOR or
      CRITICAL severity, LOW for anything that is not a known severity. */
  lemma PriorityFollowsSeverity(severity: string)
    ensures (PriorityLevel(severity) == "HIGH" || PriorityLevel(severity) == "CRITICAL") <==> severity in {"MAJOR", "CRITICAL"}
    ensures PriorityLevel(severity) == "LOW" <==> severity !in {"MAJOR", "CRITICAL", "MEDIUM"}
    ensures |Preparation(PriorityLevel(severity))| == (if severity in {"MAJOR", "CRITICAL"} then 3 else 1)
  {
  }

  /** Three regions for a serious severity and two otherwise, plus a
      Pelvis/Spine entry exactly when there are two or more victims. */
  lemma InjuriesShape(severity: string, victimCount: int)
    ensures |Injuries(severity, victimCount)| == (if severity in {"MAJOR", "CRITICAL"} then 3 else 2) + (if victimCount >= 2 then 1 else 0)
    ensures (exists k :: 0 <= k < |Injuries(severity, victimCount)| && Injuries(severity, victimCount)[k].region == "Pelvis/Spine")
            <==> victimCount >= 2
  {
    var injuries := Injuries(severity, victimCount);
    assert injuries[|injuries| - 1].region == "Pelvis/Spine" <==> victimCount >= 2;
  }

  /** What the report promises as a whole. */
  lemma InjuryReportShape(severity: string, vehicleType: Option<string>, victimCount: int,
                          collision: bool, personCount: int)
    ensures var r := BuildInjuryReport(severity, vehicleType, victimCount, collision, personCount);
      && ((r.priorityLevel == "HIGH" || r.priorityLevel == "CRITICAL") <==> severity in {"MAJOR", "CRITICAL"})
      && |r.estimatedInjuries| == (if severity in {"MAJOR", "CRITICAL"} then 3 else 2) + (if victimCount >= 2 then 1 else 0)
      && |r.recommendedPreparation| == (if severity in {"MAJOR", "CRITICAL"} then 3 else 1)
      && (r.mechanismOfInjury == "Road traffic accident" <==> !collision && !Truthy(vehicleType) && personCount <= 0)
      && r.summaryForDoctors[..|r.mechanismOfInjury|] == r.mechanismOfInjury
      && !IsBlank(r.summaryForDoctors)
  {
    var r := BuildInjuryReport(severity, vehicleType, victimCount, collision, personCount);
    PriorityFollowsSeverity(severity);
    InjuriesShape(severity, victimCount);
    MechanismFallback(collision, vehicleType, personCount);
    DoctorSummaryShape(r.mechanismOfInjury, victimCount, r.estimatedInjuries, r.recommendedPreparation);
  }

  /** A decoded frame or a plotted copy of one, kept abstract. */
  datatype Image = Image(id: nat)

  /** A snapshot file: its name under the snapshot directory and its image. */
  datatype Snapshot = Snapshot(filename: string, image: Image)

  const SnapshotBaseUrl := "http://localhost:8000/snapshots/"

  /** The fixed coordinates both endpoints report. */
  const ReportedLat: real := 19.0
  const ReportedLng: real := 73.0

  /** What the detection service sends to the backend for one incident. */
  datatype Payload = Payload(
    cameraId: string,
    severity: string,
    victims: int,
    source: string,
    locationLat: real,
    locationLng: real,
    snapshotUrl: Option<string>,
    likelyInjuries: InjuryReport,
    doctorReportSummary: string)

  /** What the backend answered: nothing (the call failed, or the body was
      empty), or a body from which an incident id may have been read. */
  datatype Reply = NoReply | Replied(incidentId: Option<int>)

  function ReplyIds(reply: Reply): (ids: seq<int>)
    ensures |ids| <= 1
    ensures |ids| == 1 <==> reply.Replied? && reply.incidentId.Some?
    ensures |ids| == 1 ==> ids[0] == reply.incidentId.value
  {
    if reply.Replied? && reply.incidentId.Some? then [reply.incidentId.value] else []
  }

  /** Python's int() of a float: truncation toward zero. */
  function Trunc(x: real): int
  {
    if x >= 0.0 then x.Floor else -((-x).Floor)
  }

  /** The HTTP response of both detection endpoints. */
  datatype AnalysisResponse = AnalysisResponse(message: string, accidentsDetected: int, incidentIds: seq<int>)

  /** The lexicographic order on (severity_score, overlap_ratio). */
  predicate KeyLess(s1: int, r1: real, s2: int, r2: real)
  {
    s1 < s2 || (s1 == s2 && r1 < r2)
  }
}
