/** analyze_video: pass 1 runs the detector on every third frame, confirms
    an accident after three analysed accident frames in a row, and keeps the
    worst confirmed frame; pass 2 reads the video again and saves the frames
    just before the worst frame, its plotted image, and the frames just after
    it; then the incident is sent once. The detector's output, the plotted
    image (absent when plotting fails), the clock, the main snapshot's unique
    id and the backend's reply are inputs. */
module Video {
  import opened Common
  import opened Detection
  import opened Live

  const FrameStep: int := 3
  const VideoConfirmFrames: int := 3
  const VideoCameraId := "VIDEO_CAM_1"
  const VideoSource := "VIDEO"
  const NoAccidentMessage := "No accident detected in video."

  /** One frame of the video as both passes read it. */
  datatype VideoFrame = VideoFrame(image: Image, detections: seq<Detection>, annotated: Option<Image>)

  // ---------------------------------------------------------------------
  // Pass 1: the worst confirmed accident frame
  // ---------------------------------------------------------------------

  /** The variables pass 1 carries from one frame to the next. */
  datatype Pass1 = Pass1(
    frameIndex: int,
    counter: int,
    bestSeverity: string,
    bestScore: int,
    bestOverlap: real,
    bestVictims: int,
    bestPersons: int,
    bestCollision: bool,
    bestVehicle: Option<string>,
    bestIndex: Option<int>,
    bestAnnotated: Option<Image>)

  const Pass1Start := Pass1(0, 0, "MINOR", 0, 0.0, 0, 0, false, None, None, None)

  /** An analysed frame, numbered `idx`, with its counts and overlap ratio:
      the counter advances or resets, and a confirmed frame whose
      (severity score, overlap ratio) is strictly above the best so far
      becomes the best. */
  function Consider(p: Pass1, idx: int, st: FrameStats, ratio: real, annotated: Option<Image>): Pass1
  {
    var counter := if IsAccidentFrame(st) then p.counter + 1 else 0;
    var severity := FrameSeverity(st);
    var score := SeverityScore(severity);
    if counter >= VideoConfirmFrames && KeyLess(p.bestScore, p.bestOverlap, score, ratio) then
      Pass1(idx, counter, severity, score, ratio, VictimsEstimated(st), st.persons, st.collision,
            st.primaryVehicle, Some(idx), annotated)
    else
      p.(frameIndex := idx, counter := counter)
  }

  /** What the detector and the overlap computation make of one frame. */
  datatype Look = Look(st: FrameStats, ratio: real, annotated: Option<Image>)

  ghost function LookAt(fr: VideoFrame): Look
  {
    var st := Stats(fr.detections);
    Look(st, MaxPairRatio(st.boxes), fr.annotated)
  }

  /** The looks at every frame of a video, in order. */
  ghost function Looks(frames: seq<VideoFrame>): (r: seq<Look>)
    ensures |r| == |frames|
  {
    seq(|frames|, k requires 0 <= k < |frames| => LookAt(frames[k]))
  }

  /** One frame read by pass 1: frames are numbered from 1 and only every
      third one is analysed. */
  function ScanStep(p: Pass1, look: Look): Pass1
  {
    var idx := p.frameIndex + 1;
    if idx % FrameStep != 0 then p.(frameIndex := idx)
    else Consider(p, idx, look.st, look.ratio, look.annotated)
  }

  /** Pass 1 over the frames read so far. */
  function Scan(looks: seq<Look>): Pass1
    decreases |looks|
  {
    if looks == [] then Pass1Start else ScanStep(Scan(looks[..|looks| - 1]), looks[|looks| - 1])
  }

  /** The pass 1 loop. */
  method ScanVideo(frames: seq<VideoFrame>) returns (p: Pass1)
    ensures p == Scan(Looks(frames))
  {
    ghost var looks := Looks(frames);
    p := Pass1Start;
    var i := 0;
    while i < |frames|
      invariant 0 <= i <= |frames|
      invariant p == Scan(looks[..i])
    {
      var fr := frames[i];
      var frameIndex := p.frameIndex + 1;
      if frameIndex % FrameStep != 0 {
        p := p.(frameIndex := frameIndex);
      } else {
        var st, ratio := AnalyzeFrame(fr.detections);
        p := ConsiderFrame(p, frameIndex, st, ratio, fr.annotated);
      }
      ScanSnoc(looks, i);
      i := i + 1;
    }
    assert looks[..i] == looks;
  }

  /** Reading one more frame is one more step of the scan. */
  lemma ScanSnoc(looks: seq<Look>, i: int)
    requires 0 <= i < |looks|
    ensures Scan(looks[..i + 1]) == ScanStep(Scan(looks[..i]), looks[i])
  {
    assert looks[..i + 1][..i] == looks[..i];
  }

  /** The body of pass 1 for an analysed frame. */
  method ConsiderFrame(p0: Pass1, frameIndex: int, st: FrameStats, ratio: real, annotated: Option<Image>)
    returns (p: Pass1)
    ensures p == Consider(p0, frameIndex, st, ratio, annotated)
  {
    var counter := if IsAccidentFrame(st) then p0.counter + 1 else 0;
    p := p0.(frameIndex := frameIndex, counter := counter);
    if counter < VideoConfirmFrames {
      return;
    }
    var severity := FrameSeverity(st);
    var severityScore := SeverityScore(severity);
    var isBetter := false;
    if severityScore > p.bestScore {
      isBetter := true;
    } else if severityScore == p.bestScore && ratio > p.bestOverlap {
      isBetter := true;
    }
    if isBetter {
      p := p.(bestScore := severityScore, bestSeverity := severity, bestOverlap := ratio,
              bestVictims := VictimsEstimated(st), bestPersons := st.persons, bestCollision := st.collision,
              bestVehicle := st.primaryVehicle, bestIndex := Some(frameIndex), bestAnnotated := annotated);
    }
  }

  /** Pass 1 has read every frame: the frame index is the number of frames. */
  lemma {:induction false} ScanIndex(looks: seq<Look>)
    ensures Scan(looks).frameIndex == |looks|
    decreases |looks|
  {
    if looks != [] {
      ScanIndex(looks[..|looks| - 1]);
    }
  }

  /** The frame at position k (frame number k + 1) is analysed, and it is
      the third or later accident frame in a row among the analysed ones. */
  ghost predicate ConfirmedAt(looks: seq<Look>, k: int)
  {
    0 <= k < |looks| && (k + 1) % FrameStep == 0 && Scan(looks[..k + 1]).counter >= VideoConfirmFrames
  }

  function ScoreOf(look: Look): int
  {
    SeverityScore(FrameSeverity(look.st))
  }

  /** The values pass 1 keeps about its best frame. */
  datatype Kept = Kept(severity: string, score: int, overlap: real, victims: int, persons: int,
                       collision: bool, vehicle: Option<string>, annotated: Option<Image>)

  function KeptOf(p: Pass1): Kept
  {
    Kept(p.bestSeverity, p.bestScore, p.bestOverlap, p.bestVictims, p.bestPersons,
         p.bestCollision, p.bestVehicle, p.bestAnnotated)
  }

  /** What pass 1 keeps when `look` becomes the best frame. */
  function LookKept(look: Look): Kept
  {
    Kept(FrameSeverity(look.st), ScoreOf(look), look.ratio, VictimsEstimated(look.st), look.st.persons,
         look.st.collision, look.st.primaryVehicle, look.annotated)
  }

  /** The best-frame variables describe `look`. */
  ghost predicate HoldsBest(p: Pass1, look: Look)
  {
    KeptOf(p) == LookKept(look)
  }

  /** Confirmation of an earlier frame does not depend on later frames. */
  lemma ConfirmedEarlier(looks: seq<Look>, k: int)
    requires 0 <= k < |looks| - 1
    ensures looks[k] == looks[..|looks| - 1][k]
    ensures ConfirmedAt(looks, k) <==> ConfirmedAt(looks[..|looks| - 1], k)
  {
    assert looks[..k + 1] == looks[..|looks| - 1][..k + 1];
  }

  /** The newest frame is confirmed when it is analysed and the counter has
      reached three. */
  lemma ConfirmedLast(looks: seq<Look>)
    requires looks != []
    ensures ConfirmedAt(looks, |looks| - 1) <==>
      |looks| % FrameStep == 0 && Scan(looks).counter >= VideoConfirmFrames
  {
    assert looks[..|looks|] == looks;
  }

  /** The best-frame variables are those of `p0`. */
  ghost predicate SameBest(p: Pass1, p0: Pass1)
  {
    p == p0.(frameIndex := p.frameIndex, counter := p.counter)
  }

  /** One frame of pass 1: a confirmed frame that ranks strictly above the
      best so far replaces it; anything else leaves the best as it was. */
  lemma StepCases(p0: Pass1, look: Look)
    ensures var p := ScanStep(p0, look);
      var idx := p0.frameIndex + 1;
      var confirmed := idx % FrameStep == 0 && p.counter >= VideoConfirmFrames;
      && p.frameIndex == idx
      && (idx % FrameStep != 0 ==> p.counter == p0.counter)
      && (if confirmed && KeyLess(p0.bestScore, p0.bestOverlap, ScoreOf(look), look.ratio)
          then p.bestIndex == Some(idx) && HoldsBest(p, look)
          else SameBest(p, p0))
      && ScoreOf(look) >= 1
  {
  }

  /** Pass 1 has a best frame exactly when its best score is positive. */
  lemma {:induction false} ScanScoreZero(looks: seq<Look>)
    ensures Scan(looks).bestIndex.None? <==> Scan(looks).bestScore == 0
    decreases |looks|
  {
    if looks != [] {
      var n := |looks|;
      var init := looks[..n - 1];
      ScanScoreZero(init);
      StepCases(Scan(init), looks[n - 1]);
    }
  }

  /** The best frame pass 1 keeps is a confirmed frame whose variables are
      the ones kept. */
  lemma ScanBestShape(looks: seq<Look>)
    ensures var p := Scan(looks);
      p.bestIndex.Some? ==>
        1 <= p.bestIndex.value <= |looks| && ConfirmedAt(looks, p.bestIndex.value - 1)
        && HoldsBest(p, looks[p.bestIndex.value - 1])
  {
    ScanBestConfirmed(looks);
    ScanBestHolds(looks);
  }

  lemma {:induction false} ScanBestConfirmed(looks: seq<Look>)
    ensures var p := Scan(looks);
      p.bestIndex.Some? ==> 1 <= p.bestIndex.value <= |looks| && ConfirmedAt(looks, p.bestIndex.value - 1)
    decreases |looks|
  {
    if looks != [] {
      var n := |looks|;
      var init := looks[..n - 1];
      var p0 := Scan(init);
      var p := Scan(looks);
      ScanIndex(init);
      StepCases(p0, looks[n - 1]);
      ScanBestConfirmed(init);
      if p.bestIndex.Some? && p.bestIndex != Some(n) {
        ConfirmedEarlier(looks, p.bestIndex.value - 1);
      } else if p.bestIndex == Some(n) {
        ConfirmedLast(looks);
      }
    }
  }

  lemma {:induction false} ScanBestHolds(looks: seq<Look>)
    ensures var p := Scan(looks);
      p.bestIndex.Some? ==> 1 <= p.bestIndex.value <= |looks| && HoldsBest(p, looks[p.bestIndex.value - 1])
    decreases |looks|
  {
    if looks != [] {
      var n := |looks|;
      var init := looks[..n - 1];
      var p0 := Scan(init);
      var p := Scan(looks);
      ScanIndex(init);
      StepCases(p0, looks[n - 1]);
      ScanBestHolds(init);
      if p.bestIndex.Some? && p.bestIndex != Some(n) {
        var b := p.bestIndex.value;
        assert looks[b - 1] == init[b - 1];
        SameBestHolds(p, p0, init[b - 1]);
      }
    }
  }

  lemma SameBestHolds(p: Pass1, p0: Pass1, look: Look)
    requires SameBest(p, p0)
    ensures HoldsBest(p, look) <==> HoldsBest(p0, look)
  {
  }

  /** Pass 1 finds a best frame exactly when some frame is confirmed. */
  lemma ScanFindsBest(looks: seq<Look>)
    ensures Scan(looks).bestIndex.Some? <==> exists k :: ConfirmedAt(looks, k)
  {
    var p := Scan(looks);
    if p.bestIndex.Some? {
      ScanBestConfirmed(looks);
      assert ConfirmedAt(looks, p.bestIndex.value - 1);
    }
    if exists k :: ConfirmedAt(looks, k) {
      var k :| ConfirmedAt(looks, k);
      ConfirmedGivesBest(looks, k);
    }
  }

  /** Once some frame is confirmed, pass 1 holds a best frame. */
  lemma {:induction false} ConfirmedGivesBest(looks: seq<Look>, k: int)
    requires ConfirmedAt(looks, k)
    ensures Scan(looks).bestIndex.Some?
    decreases |looks|
  {
    var n := |looks|;
    var init := looks[..n - 1];
    ScanIndex(init);
    StepCases(Scan(init), looks[n - 1]);
    if k < n - 1 {
      ConfirmedEarlier(looks, k);
      ConfirmedGivesBest(init, k);
    } else {
      ConfirmedLast(looks);
      ScanScoreZero(init);
    }
  }

  /** No confirmed frame ranks above the best on (severity score, overlap
      ratio). */
  lemma {:induction false} ScanBestIsMax(looks: seq<Look>)
    ensures var p := Scan(looks);
      forall k :: ConfirmedAt(looks, k) ==> !KeyLess(p.bestScore, p.bestOverlap, ScoreOf(looks[k]), looks[k].ratio)
    decreases |looks|
  {
    if looks != [] {
      var n := |looks|;
      var init := looks[..n - 1];
      var p0 := Scan(init);
      var p := Scan(looks);
      ScanBestIsMax(init);
      ScanIndex(init);
      StepCases(p0, looks[n - 1]);
      forall k | ConfirmedAt(looks, k)
        ensures !KeyLess(p.bestScore, p.bestOverlap, ScoreOf(looks[k]), looks[k].ratio)
      {
        if k < n - 1 {
          ConfirmedEarlier(looks, k);
        } else {
          ConfirmedLast(looks);
        }
      }
    }
  }

  /** Every confirmed frame before the best ranks strictly below it: the
      best is the first frame with the highest rank. */
  lemma ScanBestIsFirst(looks: seq<Look>)
    ensures var p := Scan(looks);
      forall k :: ConfirmedAt(looks, k) && p.bestIndex.Some? && k < p.bestIndex.value - 1 ==>
        KeyLess(ScoreOf(looks[k]), looks[k].ratio, p.bestScore, p.bestOverlap)
  {
    var p := Scan(looks);
    forall k | ConfirmedAt(looks, k) && p.bestIndex.Some? && k < p.bestIndex.value - 1
      ensures KeyLess(ScoreOf(looks[k]), looks[k].ratio, p.bestScore, p.bestOverlap)
    {
      ScanBestIsFirstAt(looks, k);
    }
  }

  lemma {:induction false} ScanBestIsFirstAt(looks: seq<Look>, k: int)
    requires ConfirmedAt(looks, k) && Scan(looks).bestIndex.Some? && k < Scan(looks).bestIndex.value - 1
    ensures KeyLess(ScoreOf(looks[k]), looks[k].ratio, Scan(looks).bestScore, Scan(looks).bestOverlap)
    decreases |looks|
  {
    var n := |looks|;
    var init := looks[..n - 1];
    var p0 := Scan(init);
    ScanIndex(init);
    ScanBestConfirmed(init);
    StepCases(p0, looks[n - 1]);
    ConfirmedEarlier(looks, k);
    if Scan(looks).bestIndex == Some(n) {
      // the new best ranks strictly above the old one, which no confirmed frame beats
      var last := looks[n - 1];
      assert KeyLess(p0.bestScore, p0.bestOverlap, ScoreOf(last), last.ratio);
      assert KeptOf(Scan(looks)) == LookKept(last);
      ScanBestIsMax(init);
      assert ConfirmedAt(init, k);
    } else {
      ScanBestIsFirstAt(init, k);
    }
  }

  // ---------------------------------------------------------------------
  // Pass 2: the snapshots around the best frame
  // ---------------------------------------------------------------------

  /** The images of a video, in order. */
  function Images(frames: seq<VideoFrame>): (r: seq<Image>)
    ensures |r| == |frames|
  {
    seq(|frames|, k requires 0 <= k < |frames| => frames[k].image)
  }

  /** The images whose frame number (counted from 1) lies in [lo, hi]. */
  function Window(images: seq<Image>, lo: int, hi: int): seq<Image>
  {
    var a := if lo <= 1 then 0 else if lo - 1 <= |images| then lo - 1 else |images|;
    var z := if hi <= a then a else if hi <= |images| then hi else |images|;
    images[a..z]
  }

  /** A window holds, in order, the images numbered MaxInt(lo, 1) up to
      MinInt(hi, |images|), and no others. */
  lemma WindowSpec(images: seq<Image>, lo: int, hi: int)
    ensures var r := Window(images, lo, hi);
      && |r| == Max0(MinInt(hi, |images|) - MaxInt(lo, 1) + 1)
      && forall k :: 0 <= k < |r| ==> r[k] == images[MaxInt(lo, 1) - 1 + k]
  {
  }

  function MaxInt(a: int, b: int): int { if a >= b then a else b }
  function MinInt(a: int, b: int): int { if a <= b then a else b }
  function Max0(a: int): nat { if a >= 0 then a else 0 }

  /** Reading one more frame adds it to a window exactly when its number
      lies in the window's range. */
  lemma WindowStep(images: seq<Image>, i: nat, lo: int, hi: int)
    requires i < |images|
    ensures Window(images[..i + 1], lo, hi)
         == Window(images[..i], lo, hi) + (if lo <= i + 1 <= hi then [images[i]] else [])
  {
    var u := Window(images[..i + 1], lo, hi);
    var v := Window(images[..i], lo, hi) + (if lo <= i + 1 <= hi then [images[i]] else []);
    WindowSpec(images[..i + 1], lo, hi);
    WindowSpec(images[..i], lo, hi);
    assert |u| == |v|;
    forall k | 0 <= k < |u|
      ensures u[k] == v[k]
    {
    }
  }

  /** Frames after the end of a window's range do not change it. */
  lemma WindowPrefix(images: seq<Image>, i: nat, lo: int, hi: int)
    requires hi <= i <= |images|
    ensures Window(images[..i], lo, hi) == Window(images, lo, hi)
  {
    var u := Window(images[..i], lo, hi);
    var v := Window(images, lo, hi);
    WindowSpec(images[..i], lo, hi);
    WindowSpec(images, lo, hi);
    assert |u| == |v|;
    forall k | 0 <= k < |u|
      ensures u[k] == v[k]
    {
    }
  }

  /** The two kinds of numbered snapshot pass 2 writes. */
  datatype ShotKind = PreShot | PostShot

  function ShotName(kind: ShotKind, tag: string, n: int): string
  {
    (if kind == PreShot then "video_accident_pre_" else "video_accident_post_")
      + tag + "_" + DecimalString(n) + ".jpg"
  }

  function VideoMainName(tag: string, snapshotId: string): string
  {
    "video_accident_main_" + tag + "_" + snapshotId + ".jpg"
  }

  /** Snapshots of the given images, numbered from 0 in order. */
  function Shots(kind: ShotKind, tag: string, images: seq<Image>): (r: seq<Snapshot>)
    ensures |r| == |images|
    ensures forall k :: 0 <= k < |r| ==> r[k] == Snapshot(ShotName(kind, tag, k), images[k])
  {
    seq(|images|, k requires 0 <= k < |images| => Snapshot(ShotName(kind, tag, k), images[k]))
  }

  /** One more image adds one more snapshot, numbered after the others. */
  lemma ShotsStep(kind: ShotKind, tag: string, images: seq<Image>, image: Image)
    ensures Shots(kind, tag, images + [image]) == Shots(kind, tag, images) + [Snapshot(ShotName(kind, tag, |images|), image)]
  {
    var u := Shots(kind, tag, images + [image]);
    var v := Shots(kind, tag, images) + [Snapshot(ShotName(kind, tag, |images|), image)];
    assert |u| == |v|;
    forall k | 0 <= k < |u|
      ensures u[k] == v[k]
    {
      if k < |images| {
        assert (images + [image])[k] == images[k];
        assert v[k] == Shots(kind, tag, images)[k];
      } else {
        assert (images + [image])[k] == image;
      }
    }
    assert u == v;
  }

  /** The numbers of the frames pass 2 saves around best frame `best`. */
  function PreStart(best: int): int { MaxInt(1, best - PreSnapshotCount) }
  function PreEnd(best: int): int { best - 1 }
  function PostEnd(best: int): int { best + PostCaptureFrames }

  /** The pre-accident snapshots, the main snapshot and the post-accident
      snapshots pass 2 writes around best frame `best`. */
  function PreShots(images: seq<Image>, best: int, tag: string): seq<Snapshot>
  {
    Shots(PreShot, tag, Window(images, PreStart(best), PreEnd(best)))
  }

  function MainShot(images: seq<Image>, best: int, annotated: Option<Image>, tag: string, snapshotId: string): Option<Snapshot>
  {
    if 1 <= best <= |images| && annotated.Some? then Some(Snapshot(VideoMainName(tag, snapshotId), annotated.value))
    else None
  }

  function PostShots(images: seq<Image>, best: int, tag: string): seq<Snapshot>
  {
    Shots(PostShot, tag, Window(images, best + 1, PostEnd(best)))
  }

  /** The limits of five pre-accident and twenty-five post-accident frames
      never stop a frame of either range from being saved: when frame i + 1
      is in a range, fewer frames than the limit were saved for it before. */
  lemma LimitsNeverBind(images: seq<Image>, i: nat, best: int)
    requires i < |images|
    ensures PreStart(best) <= i + 1 <= PreEnd(best) ==>
      |Window(images[..i], PreStart(best), PreEnd(best))| < PreSnapshotCount
    ensures best < i + 1 <= PostEnd(best) ==>
      |Window(images[..i], best + 1, PostEnd(best))| < PostCaptureFrames
  {
    WindowSpec(images[..i], PreStart(best), PreEnd(best));
    WindowSpec(images[..i], best + 1, PostEnd(best));
  }

  /** Saves the frame as the next numbered snapshot of a range when it lies
      in the range and the range's limit is not reached yet. */
  method SaveInRange(kind: ShotKind, tag: string, ghost window: seq<Image>, shots: seq<Snapshot>,
                     inRange: bool, limit: int, frame: Image) returns (r: seq<Snapshot>)
    requires shots == Shots(kind, tag, window)
    requires inRange ==> |shots| < limit
    ensures r == Shots(kind, tag, window + (if inRange then [frame] else []))
  {
    r := shots;
    if inRange && |shots| < limit {
      ShotsStep(kind, tag, window, frame);
      r := shots + [Snapshot(ShotName(kind, tag, |shots|), frame)];
    } else {
      assert window + [] == window;
    }
  }

  /** What pass 2 has saved after reading the first `i` frames. */
  ghost predicate SavedUpTo(images: seq<Image>, i: nat, best: int, annotated: Option<Image>, tag: string, snapshotId: string,
                            pre: seq<Snapshot>, main: Option<Snapshot>, post: seq<Snapshot>)
    requires i <= |images|
  {
    && pre == Shots(PreShot, tag, Window(images[..i], PreStart(best), PreEnd(best)))
    && main == MainShot(images[..i], best, annotated, tag, snapshotId)
    && post == Shots(PostShot, tag, Window(images[..i], best + 1, PostEnd(best)))
  }

  /** The pass 2 loop body for frame number i + 1. */
  method SaveFrame(images: seq<Image>, i: nat, best: int, annotated: Option<Image>, tag: string, snapshotId: string,
                   pre0: seq<Snapshot>, main0: Option<Snapshot>, post0: seq<Snapshot>)
    returns (pre: seq<Snapshot>, main: Option<Snapshot>, post: seq<Snapshot>)
    requires i < |images|
    requires SavedUpTo(images, i, best, annotated, tag, snapshotId, pre0, main0, post0)
    ensures SavedUpTo(images, i + 1, best, annotated, tag, snapshotId, pre, main, post)
  {
    var frame := images[i];
    var frameIndex := i + 1;
    WindowStep(images, i, PreStart(best), PreEnd(best));
    WindowStep(images, i, best + 1, PostEnd(best));
    LimitsNeverBind(images, i, best);
    pre := SaveInRange(PreShot, tag, Window(images[..i], PreStart(best), PreEnd(best)), pre0,
                       PreStart(best) <= frameIndex <= PreEnd(best), PreSnapshotCount, frame);
    main := main0;
    if frameIndex == best && main.None? && annotated.Some? {
      main := Some(Snapshot(VideoMainName(tag, snapshotId), annotated.value));
    }
    assert images[..i + 1][..i] == images[..i];
    post := SaveInRange(PostShot, tag, Window(images[..i], best + 1, PostEnd(best)), post0,
                        best < frameIndex <= PostEnd(best), PostCaptureFrames, frame);
  }

  /** The pass 2 loop: it saves every frame of the two ranges (the
      five-frame and twenty-five-frame limits never cut a range short) and
      the main snapshot when the best frame is read and its plotted image
      exists, and stops after the last post-accident frame. */
  method SaveSnapshots(images: seq<Image>, best: int, annotated: Option<Image>, tag: string, snapshotId: string)
    returns (pre: seq<Snapshot>, main: Option<Snapshot>, post: seq<Snapshot>)
    ensures pre == PreShots(images, best, tag)
    ensures main == MainShot(images, best, annotated, tag, snapshotId)
    ensures post == PostShots(images, best, tag)
  {
    var postEnd := PostEnd(best);
    pre, main, post := [], None, [];
    var frameIndex := 0;
    while frameIndex < |images|
      invariant 0 <= frameIndex <= |images|
      invariant frameIndex == 0 || frameIndex <= postEnd
      invariant SavedUpTo(images, frameIndex, best, annotated, tag, snapshotId, pre, main, post)
    {
      pre, main, post := SaveFrame(images, frameIndex, best, annotated, tag, snapshotId, pre, main, post);
      frameIndex := frameIndex + 1;
      if frameIndex > postEnd {
        break;
      }
    }
    SavedEverything(images, frameIndex, best, annotated, tag, snapshotId, pre, main, post);
  }

  /** Once every frame is read, or a frame past the post-accident range,
      pass 2 has saved all it will. */
  lemma SavedEverything(images: seq<Image>, i: nat, best: int, annotated: Option<Image>, tag: string, snapshotId: string,
                        pre: seq<Snapshot>, main: Option<Snapshot>, post: seq<Snapshot>)
    requires i <= |images| && (i == |images| || i > PostEnd(best))
    requires SavedUpTo(images, i, best, annotated, tag, snapshotId, pre, main, post)
    ensures pre == PreShots(images, best, tag)
    ensures main == MainShot(images, best, annotated, tag, snapshotId)
    ensures post == PostShots(images, best, tag)
  {
    if i < |images| {
      WindowPrefix(images, i, PreStart(best), PreEnd(best));
      WindowPrefix(images, i, best + 1, PostEnd(best));
    } else {
      assert images[..i] == images;
    }
  }

  /** The pre-accident snapshots are the (at most five) frames immediately
      before the best frame, oldest first, numbered from 0. */
  lemma PreShotsBeforeBest(images: seq<Image>, best: int, tag: string)
    requires 1 <= best <= |images|
    ensures var pre := PreShots(images, best, tag);
      && |pre| == MinInt(PreSnapshotCount, best - 1)
      && forall k :: 0 <= k < |pre| ==>
           pre[k] == Snapshot(ShotName(PreShot, tag, k), images[best - 1 - |pre| + k])
  {
    WindowSpec(images, PreStart(best), PreEnd(best));
  }

  /** The post-accident snapshots are the (at most twenty-five) frames
      immediately after the best frame, in order, numbered from 0. */
  lemma PostShotsAfterBest(images: seq<Image>, best: int, tag: string)
    requires 1 <= best <= |images|
    ensures var post := PostShots(images, best, tag);
      && |post| == MinInt(PostCaptureFrames, |images| - best)
      && forall k :: 0 <= k < |post| ==>
           post[k] == Snapshot(ShotName(PostShot, tag, k), images[best + k])
  {
    WindowSpec(images, best + 1, PostEnd(best));
  }

  // ---------------------------------------------------------------------
  // The whole endpoint
  // ---------------------------------------------------------------------

  /** What analyze_video writes and sends for a video with an accident. */
  datatype VideoSent = VideoSent(tag: string, pre: seq<Snapshot>, main: Option<Snapshot>, post: seq<Snapshot>,
                                 payload: Payload)

  /** The outcome of analyze_video given the result `p` of pass 1: no
      incident when nothing was confirmed; otherwise the snapshots around
      the best frame, and one incident carrying the best frame's severity,
      victims and injury report, with the main snapshot's URL when it was
      saved. */
  function VideoResult(p: Pass1, images: seq<Image>, now: real, snapshotId: string, reply: Reply)
    : (AnalysisResponse, Option<VideoSent>)
  {
    if p.bestScore == 0 || p.bestIndex.None? then
      (AnalysisResponse(NoAccidentMessage, 0, []), None)
    else
      var report := BuildInjuryReport(p.bestSeverity, p.bestVehicle, p.bestVictims, p.bestCollision, p.bestPersons);
      var tag := IncidentTag(VideoCameraId, now);
      var best := p.bestIndex.value;
      var main := MainShot(images, best, p.bestAnnotated, tag, snapshotId);
      var url := if main.Some? then Some(SnapshotBaseUrl + main.value.filename) else None;
      var payload := Payload(VideoCameraId, p.bestSeverity, p.bestVictims, VideoSource, ReportedLat, ReportedLng,
                             url, report, report.summaryForDoctors);
      var ids := ReplyIds(reply);
      (AnalysisResponse("Video analyzed. Max severity detected = " + p.bestSeverity + ".", |ids|, ids),
       Some(VideoSent(tag, PreShots(images, best, tag), main, PostShots(images, best, tag), payload)))
  }

  /** analyze_video on a video that was stored and opened: pass 1, then,
      when an accident was confirmed, pass 2 and the backend call. */
  method AnalyzeVideo(frames: seq<VideoFrame>, now: real, snapshotId: string, reply: Reply)
    returns (response: AnalysisResponse, sent: Option<VideoSent>)
    ensures (response, sent) == VideoResult(Scan(Looks(frames)), Images(frames), now, snapshotId, reply)
  {
    var p := ScanVideo(frames);
    response, sent := Finish(p, Images(frames), now, snapshotId, reply);
  }

  /** Everything after pass 1. */
  method Finish(p: Pass1, images: seq<Image>, now: real, snapshotId: string, reply: Reply)
    returns (response: AnalysisResponse, sent: Option<VideoSent>)
    ensures (response, sent) == VideoResult(p, images, now, snapshotId, reply)
  {
    if p.bestScore == 0 || p.bestIndex.None? {
      return AnalysisResponse(NoAccidentMessage, 0, []), None;
    }
    var report := BuildInjuryReport(p.bestSeverity, p.bestVehicle, p.bestVictims, p.bestCollision, p.bestPersons);
    var tag := IncidentTag(VideoCameraId, now);
    var pre, main, post := SaveSnapshots(images, p.bestIndex.value, p.bestAnnotated, tag, snapshotId);
    var url := if main.Some? then Some(SnapshotBaseUrl + main.value.filename) else None;
    var payload := Payload(VideoCameraId, p.bestSeverity, p.bestVictims, VideoSource, ReportedLat, ReportedLng,
                           url, report, report.summaryForDoctors);
    var ids := ReplyIds(reply);
    response := AnalysisResponse("Video analyzed. Max severity detected = " + p.bestSeverity + ".", |ids|, ids);
    sent := Some(VideoSent(tag, pre, main, post, payload));
  }

  /** analyze_video sends an incident exactly when some analysed frame is
      the third accident frame in a row, and otherwise answers that no
      accident was detected. */
  lemma VideoSendsIffConfirmed(looks: seq<Look>, images: seq<Image>, now: real, snapshotId: string, reply: Reply)
    ensures var (response, sent) := VideoResult(Scan(looks), images, now, snapshotId, reply);
      && (sent.Some? <==> exists k :: ConfirmedAt(looks, k))
      && (sent.None? ==> response == AnalysisResponse(NoAccidentMessage, 0, []))
  {
    ScanFindsBest(looks);
    ScanScoreZero(looks);
  }

  /** Frame b is confirmed, no confirmed frame outranks it, and every
      earlier confirmed frame ranks strictly below it: it is the first
      confirmed frame of the highest (severity score, overlap ratio). */
  ghost predicate BestRanked(looks: seq<Look>, b: int)
  {
    && ConfirmedAt(looks, b)
    && (forall k :: ConfirmedAt(looks, k) ==>
          !KeyLess(ScoreOf(looks[b]), looks[b].ratio, ScoreOf(looks[k]), looks[k].ratio))
    && (forall k :: ConfirmedAt(looks, k) && k < b ==>
          KeyLess(ScoreOf(looks[k]), looks[k].ratio, ScoreOf(looks[b]), looks[b].ratio))
  }

  /** The frame pass 1 keeps is the first confirmed frame of the highest
      rank, and the variables kept are that frame's. */
  lemma ScanKeepsBestRanked(looks: seq<Look>)
    requires Scan(looks).bestIndex.Some?
    ensures var b := Scan(looks).bestIndex.value - 1;
      0 <= b < |looks| && BestRanked(looks, b) && HoldsBest(Scan(looks), looks[b])
  {
    ScanBestShape(looks);
    ScanBestIsMax(looks);
    ScanBestIsFirst(looks);
  }

  /** The incident describes frame b: its severity, victims and injury
      report are frame b's, and its main snapshot exists exactly when frame
      b was plotted. */
  ghost predicate DescribesFrame(sent: VideoSent, look: Look)
  {
    && sent.payload.severity == FrameSeverity(look.st)
    && sent.payload.victims == VictimsEstimated(look.st)
    && sent.payload.likelyInjuries == BuildInjuryReport(FrameSeverity(look.st), look.st.primaryVehicle,
         VictimsEstimated(look.st), look.st.collision, look.st.persons)
    && (sent.main.Some? <==> look.annotated.Some?)
  }

  /** The incident built from pass 1 variables that hold a frame's values
      describes that frame. */
  lemma SentDescribesHeld(p: Pass1, look: Look, images: seq<Image>, now: real, snapshotId: string, reply: Reply)
    requires p.bestIndex.Some? && 1 <= p.bestIndex.value <= |images|
    requires HoldsBest(p, look) && p.bestScore != 0
    ensures var sent := VideoResult(p, images, now, snapshotId, reply).1;
      sent.Some? && DescribesFrame(sent.value, look)
  {
  }

  /** Whenever the pass 1 variables hold the values of a best-ranked frame
      they name, an incident sent describes that frame. */
  lemma SentDescribesKept(p: Pass1, looks: seq<Look>, images: seq<Image>, now: real, snapshotId: string, reply: Reply)
    requires |images| == |looks|
    ensures (p.bestIndex.Some? ==>
               1 <= p.bestIndex.value <= |looks| && BestRanked(looks, p.bestIndex.value - 1)
               && HoldsBest(p, looks[p.bestIndex.value - 1])) ==>
      var sent := VideoResult(p, images, now, snapshotId, reply).1;
      sent.Some? ==> exists b :: BestRanked(looks, b) && DescribesFrame(sent.value, looks[b])
  {
    if p.bestIndex.Some? && p.bestScore != 0 && 1 <= p.bestIndex.value <= |looks|
       && BestRanked(looks, p.bestIndex.value - 1) && HoldsBest(p, looks[p.bestIndex.value - 1]) {
      SentDescribesHeld(p, looks[p.bestIndex.value - 1], images, now, snapshotId, reply);
    }
  }

  /** The incident analyze_video sends describes the first confirmed frame
      of the highest rank. */
  lemma VideoSendsBestFrame(looks: seq<Look>, images: seq<Image>, now: real, snapshotId: string, reply: Reply)
    requires |images| == |looks|
    ensures var sent := VideoResult(Scan(looks), images, now, snapshotId, reply).1;
      sent.Some? ==> exists b :: BestRanked(looks, b) && DescribesFrame(sent.value, looks[b])
  {
    if Scan(looks).bestIndex.Some? {
      ScanKeepsBestRanked(looks);
    }
    SentDescribesKept(Scan(looks), looks, images, now, snapshotId, reply);
  }
}
