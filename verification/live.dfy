/** The live endpoint's per-camera state machine: a bounded buffer of recent
    frames, a bounded buffer of accident candidates, a consecutive accident
    frame counter, the alert cooldown, and the post-accident capture
    countdown. One call handles one uploaded frame. The detector's output,
    the plotted image, the clock, the snapshot id and the backend's reply
    are inputs of the frame. */
module Live {
  import opened Common
  import opened Detection

  const AccidentConfirmFrames: int := 3
  const FrameBufferSize: nat := 30
  const CandidateFramesSize: nat := 15
  const AlertCooldownSeconds: real := 60.0
  const PreSnapshotCount: nat := 5
  /** POST_CAPTURE_SECONDS * POST_CAPTURE_FPS = 5 * 5 */
  const PostCaptureFrames: int := 25

  const NotConfirmedMessage := "No accident detected (temporal-smoothed)."
  const CooldownMessage := "Accident already reported recently (cooldown active)."
  const DecodeFailedMessage := "Could not decode frame."

  /** deque(maxlen).append: the newest element goes last, and the oldest is
      dropped once the deque is full, so the result holds the most recent
      `maxlen` elements. */
  function PushBounded<T>(dq: seq<T>, x: T, maxlen: nat): (r: seq<T>)
    requires maxlen > 0
    ensures |r| == if |dq| < maxlen then |dq| + 1 else maxlen
    ensures r == (dq + [x])[|dq| + 1 - |r|..]
  {
    if |dq| < maxlen then dq + [x] else dq[|dq| - maxlen + 1..] + [x]
  }

  /** list(s)[-n:] */
  function LastN<T>(s: seq<T>, n: nat): (r: seq<T>)
    ensures |r| == if |s| < n then |s| else n
    ensures r == s[|s| - |r|..]
  {
    if |s| < n then s else s[|s| - n..]
  }

  /** One accident frame remembered as a candidate for the main snapshot. */
  datatype Candidate = Candidate(
    severity: string,
    severityScore: int,
    overlapRatio: real,
    victimsEstimated: int,
    personCount: int,
    collision: bool,
    primaryVehicleType: Option<string>,
    annotated: Image)

  /** `a` ranks strictly above `b` on (severity_score, overlap_ratio). */
  predicate Outranks(a: Candidate, b: Candidate)
  {
    KeyLess(b.severityScore, b.overlapRatio, a.severityScore, a.overlapRatio)
  }

  /** Python's max(candidates, key=...): the first element whose key is
      maximal (a later element replaces it only when strictly greater). */
  function BestIndex(cs: seq<Candidate>): (b: nat)
    requires cs != []
    ensures b < |cs|
    decreases |cs|
  {
    if |cs| == 1 then 0
    else
      var b := BestIndex(cs[..|cs| - 1]);
      if Outranks(cs[|cs| - 1], cs[b]) then |cs| - 1 else b
  }

  /** The chosen candidate is a first maximum: nothing outranks it, and it
      outranks every candidate before it. */
  lemma {:induction false} BestIndexIsFirstMax(cs: seq<Candidate>)
    requires cs != []
    ensures forall j :: 0 <= j < |cs| ==> !Outranks(cs[j], cs[BestIndex(cs)])
    ensures forall j :: 0 <= j < BestIndex(cs) ==> Outranks(cs[BestIndex(cs)], cs[j])
    decreases |cs|
  {
    if |cs| > 1 {
      var init := cs[..|cs| - 1];
      BestIndexIsFirstMax(init);
      var b := BestIndex(init);
      forall j | 0 <= j < |init| ensures cs[j] == init[j] { }
    }
  }

  /** The state kept for one camera. */
  datatype CameraStateValue = CameraStateValue(
    accidentCounter: int,
    frameBuffer: seq<Image>,
    candidates: seq<Candidate>,
    lastAlertTime: real,
    postRemaining: int,
    postCounter: int,
    incidentTag: Option<string>)

  /** The state get_camera_state creates for a camera seen the first time. */
  const FreshState := CameraStateValue(0, [], [], 0.0, 0, 0, None)

  /** What stays true of every camera state between calls. */
  ghost predicate Inv(s: CameraStateValue)
  {
    && s.accidentCounter >= 0
    && |s.frameBuffer| <= FrameBufferSize
    && |s.candidates| <= CandidateFramesSize
    && 0 <= s.postRemaining <= PostCaptureFrames
    && s.postCounter >= 0
    && (s.incidentTag.None? ==> s.postRemaining == 0 && s.postCounter == 0)
    && (s.incidentTag.Some? ==> s.postRemaining + s.postCounter == PostCaptureFrames)
  }

  /** One uploaded frame and the outcomes of everything outside the model
      that the call touches. */
  datatype Frame = Frame(
    image: Image,
    detections: seq<Detection>,
    annotated: Image,
    now: real,
    snapshotId: string,
    reply: Reply)

  /** What was sent to the backend for a confirmed accident. */
  datatype Sent = Sent(tag: string, pre: seq<Snapshot>, main: Snapshot, payload: Payload)

  /** The response, the post-accident snapshot written for this frame (if
      any), and what was sent (if anything). */
  datatype FrameOutcome = FrameOutcome(response: AnalysisResponse, postSnapshot: Option<Snapshot>, sent: Option<Sent>)

  /** The cooldown test: a camera that never alerted (last alert time 0) is
      treated as 9999 seconds past its last alert. */
  predicate InCooldown(lastAlertTime: real, now: real)
  {
    (if lastAlertTime != 0.0 then now - lastAlertTime else 9999.0) < AlertCooldownSeconds
  }

  function PostName(tag: string, idx: int): string
  {
    "accident_post_" + tag + "_" + DecimalString(idx) + ".jpg"
  }

  function PreName(tag: string, idx: int): string
  {
    "accident_pre_" + tag + "_" + DecimalString(idx) + ".jpg"
  }

  function MainName(tag: string, snapshotId: string): string
  {
    "accident_main_" + tag + "_" + snapshotId + ".jpg"
  }

  /** The pre-accident snapshots, numbered from 0 in buffer order. */
  function PreSnapshots(tag: string, frames: seq<Image>): (r: seq<Snapshot>)
    ensures |r| == |frames|
    ensures forall k :: 0 <= k < |r| ==> r[k] == Snapshot(PreName(tag, k), frames[k])
  {
    seq(|frames|, k requires 0 <= k < |frames| => Snapshot(PreName(tag, k), frames[k]))
  }

  function IncidentTag(cameraId: string, now: real): string
  {
    cameraId + "_" + DecimalString(Trunc(now))
  }

  function CandidateOf(st: FrameStats, ratio: real, annotated: Image): Candidate
  {
    var severity := FrameSeverity(st);
    Candidate(severity, SeverityScore(severity), ratio, VictimsEstimated(st), st.persons, st.collision, st.primaryVehicle, annotated)
  }

  /** The frame pushed onto the buffer and, while a post capture is running,
      one more post-accident frame counted. */
  function Buffered(s: CameraStateValue, image: Image): CameraStateValue
  {
    var posting := s.postRemaining > 0 && s.incidentTag.Some?;
    s.(frameBuffer := PushBounded(s.frameBuffer, image, FrameBufferSize),
       postRemaining := if posting then s.postRemaining - 1 else s.postRemaining,
       postCounter := if posting then s.postCounter + 1 else s.postCounter)
  }

  /** The frame's analysis applied: an accident frame is recorded as a
      candidate and advances the counter; any other frame resets it. */
  function Recorded(s: CameraStateValue, st: FrameStats, ratio: real, annotated: Image): CameraStateValue
  {
    if IsAccidentFrame(st) then
      s.(accidentCounter := s.accidentCounter + 1,
         candidates := PushBounded(s.candidates, CandidateOf(st, ratio, annotated), CandidateFramesSize))
    else
      s.(accidentCounter := 0)
  }

  /** The state after the frame's intake: the frame buffered, a post
      snapshot taken if a capture is running, the candidate recorded and the
      counter advanced or reset. */
  ghost function Intake(s: CameraStateValue, f: Frame): CameraStateValue
  {
    var st := Stats(f.detections);
    Recorded(Buffered(s, f.image), st, MaxPairRatio(st.boxes), f.annotated)
  }

  function PostSnapshot(s: CameraStateValue, f: Frame): Option<Snapshot>
  {
    if s.postRemaining > 0 && s.incidentTag.Some? then Some(Snapshot(PostName(s.incidentTag.value, s.postCounter), f.image))
    else None
  }

  /** The report, snapshots and payload for the best candidate. */
  function Dispatch(s: CameraStateValue, cameraId: string, f: Frame): Sent
    requires s.candidates != []
  {
    var best := s.candidates[BestIndex(s.candidates)];
    var report := BuildInjuryReport(best.severity, best.primaryVehicleType, best.victimsEstimated, best.collision, best.personCount);
    var tag := IncidentTag(cameraId, f.now);
    var mainName := MainName(tag, f.snapshotId);
    var payload := Payload(cameraId, best.severity, best.victimsEstimated, "LIVE_YOLO", ReportedLat, ReportedLng,
                           Some(SnapshotBaseUrl + mainName), report, report.summaryForDoctors);
    Sent(tag, PreSnapshots(tag, LastN(s.frameBuffer, PreSnapshotCount)), Snapshot(mainName, best.annotated), payload)
  }

  /** The frame is confirmed: it is the third accident frame in a row. */
  ghost predicate Confirmed(s: CameraStateValue, f: Frame)
  {
    Intake(s, f).accidentCounter >= AccidentConfirmFrames
  }

  /** A confirmed frame outside the cooldown: the incident is sent. */
  ghost predicate Sends(s: CameraStateValue, f: Frame)
  {
    Confirmed(s, f) && !InCooldown(s.lastAlertTime, f.now)
  }

  /** The state after a send: alert time now, counter 0, no candidates, and
      a new 25-frame post capture under the new tag. */
  function AfterSend(s: CameraStateValue, cameraId: string, f: Frame): CameraStateValue
  {
    s.(accidentCounter := 0, candidates := [], lastAlertTime := f.now,
       postRemaining := PostCaptureFrames, postCounter := 0, incidentTag := Some(IncidentTag(cameraId, f.now)))
  }

  /** The camera state after one call of the live endpoint. */
  ghost function Next(s: CameraStateValue, cameraId: string, f: Frame): CameraStateValue
  {
    if Sends(s, f) then AfterSend(Intake(s, f), cameraId, f) else Intake(s, f)
  }

  /** What one call of the live endpoint returns and writes. */
  ghost function Outcome(s: CameraStateValue, cameraId: string, f: Frame): FrameOutcome
  {
    var post := PostSnapshot(s, f);
    if !Confirmed(s, f) then
      FrameOutcome(AnalysisResponse(NotConfirmedMessage, 0, []), post, None)
    else if InCooldown(s.lastAlertTime, f.now) then
      FrameOutcome(AnalysisResponse(CooldownMessage, 0, []), post, None)
    else
      var sent := Dispatch(Intake(s, f), cameraId, f);
      var ids := ReplyIds(f.reply);
      FrameOutcome(AnalysisResponse("Live accident confirmed. Severity=" + sent.payload.severity + ".", |ids|, ids),
                   post, Some(sent))
  }

  // ---------------------------------------------------------------------
  // Properties of one step
  // ---------------------------------------------------------------------

  lemma IntakeKeepsInv(s: CameraStateValue, f: Frame)
    requires Inv(s)
    ensures Inv(Intake(s, f))
  {
  }

  /** The buffers stay within their bounds (30 frames, 15 candidates), and
      the post capture counts down from 25 while its counter counts up. */
  lemma StepKeepsInv(s: CameraStateValue, cameraId: string, f: Frame)
    requires Inv(s)
    ensures Inv(Next(s, cameraId, f))
  {
    IntakeKeepsInv(s, f);
  }

  /** The counter grows by one on an accident frame and drops to 0 on any
      other frame; a frame is confirmed exactly when the counter reaches 3;
      something is sent exactly when a confirmed frame falls outside the
      cooldown, and then the counter is 0 again. */
  lemma StepCounter(s: CameraStateValue, cameraId: string, f: Frame)
    ensures var accident := IsAccidentFrame(Stats(f.detections));
      var confirmed := accident && s.accidentCounter + 1 >= AccidentConfirmFrames;
      && (Outcome(s, cameraId, f).sent.Some? <==> confirmed && !InCooldown(s.lastAlertTime, f.now))
      && Next(s, cameraId, f).accidentCounter
         == (if Outcome(s, cameraId, f).sent.Some? || !accident then 0 else s.accidentCounter + 1)
      && (!confirmed ==> Outcome(s, cameraId, f).response == AnalysisResponse(NotConfirmedMessage, 0, []))
      && (confirmed && InCooldown(s.lastAlertTime, f.now) ==>
            Outcome(s, cameraId, f).response == AnalysisResponse(CooldownMessage, 0, []))
  {
  }

  /** A camera that never alerted is never in cooldown; after an alert at
      time t, a frame before t + 60 sends nothing and leaves the alert time
      as it was. */
  lemma CooldownBlocks(s: CameraStateValue, cameraId: string, f: Frame)
    ensures s.lastAlertTime == 0.0 ==> !InCooldown(s.lastAlertTime, f.now)
    ensures s.lastAlertTime != 0.0 && f.now - s.lastAlertTime < AlertCooldownSeconds ==>
      Outcome(s, cameraId, f).sent.None? && Next(s, cameraId, f).lastAlertTime == s.lastAlertTime
  {
  }

  /** After a send the alert time is now, the counter is 0, the candidates
      are gone, and a fresh 25-frame post capture starts under the new tag;
      the response reports at most one incident id. */
  lemma SendResets(s: CameraStateValue, cameraId: string, f: Frame)
    requires Outcome(s, cameraId, f).sent.Some?
    ensures var s' := Next(s, cameraId, f);
      && s'.lastAlertTime == f.now && s'.accidentCounter == 0 && s'.candidates == []
      && s'.postRemaining == PostCaptureFrames && s'.postCounter == 0
      && s'.incidentTag == Some(IncidentTag(cameraId, f.now))
    ensures Outcome(s, cameraId, f).response.accidentsDetected == |Outcome(s, cameraId, f).response.incidentIds| <= 1
  {
  }

  /** The backend's reply changes the response only: the new state and what
      was sent are the same whatever the backend replied. */
  lemma ReplyChangesResponseOnly(s: CameraStateValue, cameraId: string, f: Frame, other: Reply)
    ensures Next(s, cameraId, f.(reply := other)) == Next(s, cameraId, f)
    ensures Outcome(s, cameraId, f.(reply := other)).sent == Outcome(s, cameraId, f).sent
  {
    assert Intake(s, f.(reply := other)) == Intake(s, f);
  }

  /** Dispatch reports the best candidate: the first maximum of
      (severity_score, overlap_ratio); the main snapshot is that candidate's
      plotted image, and the pre-accident snapshots are the last (at most
      five) buffered frames. */
  lemma DispatchIsBest(s: CameraStateValue, cameraId: string, f: Frame)
    requires s.candidates != [] && s.frameBuffer != []
    ensures var cs := s.candidates;
      var sent := Dispatch(s, cameraId, f);
      && (exists b :: 0 <= b < |cs|
            && sent.payload.severity == cs[b].severity
            && sent.main.image == cs[b].annotated
            && sent.payload.victims == cs[b].victimsEstimated
            && (forall j :: 0 <= j < |cs| ==> !Outranks(cs[j], cs[b]))
            && (forall j :: 0 <= j < b ==> Outranks(cs[b], cs[j])))
      && 1 <= |sent.pre| <= PreSnapshotCount
      && sent.pre[|sent.pre| - 1].image == s.frameBuffer[|s.frameBuffer| - 1]
      && sent.payload.snapshotUrl == Some(SnapshotBaseUrl + sent.main.filename)
  {
    BestIndexIsFirstMax(s.candidates);
    var b := BestIndex(s.candidates);
    var sent := Dispatch(s, cameraId, f);
    assert sent.payload.severity == s.candidates[b].severity;
    assert sent.main.image == s.candidates[b].annotated;
  }

  /** What is sent is the best candidate held once this frame is recorded,
      and the last pre-accident snapshot is this very frame. */
  lemma SentIsBestCandidate(s: CameraStateValue, cameraId: string, f: Frame)
    requires Outcome(s, cameraId, f).sent.Some?
    ensures Intake(s, f).candidates != []
    ensures Outcome(s, cameraId, f).sent == Some(Dispatch(Intake(s, f), cameraId, f))
    ensures Intake(s, f).frameBuffer[|Intake(s, f).frameBuffer| - 1] == f.image
  {
  }

  // ---------------------------------------------------------------------
  // Properties of a run of frames
  // ---------------------------------------------------------------------

  /** The camera state after a sequence of frames. */
  ghost function Run(s: CameraStateValue, cameraId: string, fs: seq<Frame>): CameraStateValue
    decreases |fs|
  {
    if fs == [] then s else Next(Run(s, cameraId, fs[..|fs| - 1]), cameraId, fs[|fs| - 1])
  }

  /** How many frames at the end of `fs` are accident frames in a row. */
  ghost function TrailingAccidents(fs: seq<Frame>): nat
    decreases |fs|
  {
    if fs == [] then 0
    else if IsAccidentFrame(Stats(fs[|fs| - 1].detections)) then 1 + TrailingAccidents(fs[..|fs| - 1])
    else 0
  }

  lemma {:induction false} CounterBoundedByRun(s: CameraStateValue, cameraId: string, fs: seq<Frame>)
    requires s.accidentCounter == 0
    ensures Run(s, cameraId, fs).accidentCounter <= TrailingAccidents(fs)
    decreases |fs|
  {
    if fs != [] {
      CounterBoundedByRun(s, cameraId, fs[..|fs| - 1]);
    }
  }

  lemma {:induction false} TrailingAreAccidents(fs: seq<Frame>, k: nat)
    requires k <= TrailingAccidents(fs)
    ensures k <= |fs|
    ensures forall j :: |fs| - k <= j < |fs| ==> IsAccidentFrame(Stats(fs[j].detections))
    decreases |fs|
  {
    if k > 0 {
      var init := fs[..|fs| - 1];
      TrailingAreAccidents(init, k - 1);
      forall j | |fs| - k <= j < |fs| - 1 ensures fs[j] == init[j] { }
    }
  }

  /** Temporal smoothing: starting from a zero counter (a camera seen for
      the first time, or one that just alerted), an alert is sent only on
      the third of at least three accident frames in a row. */
  lemma AlertNeedsThreeAccidentFrames(s: CameraStateValue, cameraId: string, fs: seq<Frame>)
    requires s.accidentCounter == 0
    requires |fs| >= 1
    requires Outcome(Run(s, cameraId, fs[..|fs| - 1]), cameraId, fs[|fs| - 1]).sent.Some?
    ensures |fs| >= 3
    ensures forall j :: |fs| - 3 <= j < |fs| ==> IsAccidentFrame(Stats(fs[j].detections))
  {
    var init := fs[..|fs| - 1];
    CounterBoundedByRun(s, cameraId, init);
    StepCounter(Run(s, cameraId, init), cameraId, fs[|fs| - 1]);
    assert TrailingAccidents(fs) >= 3;
    TrailingAreAccidents(fs, 3);
  }

  // ---------------------------------------------------------------------
  // The in-memory state objects
  // ---------------------------------------------------------------------

  class CameraState {
    var accidentCounter: int
    var frameBuffer: seq<Image>
    var candidates: seq<Candidate>
    var lastAlertTime: real
    var postRemaining: int
    var postCounter: int
    var incidentTag: Option<string>

    function Value(): CameraStateValue
      reads this
    {
      CameraStateValue(accidentCounter, frameBuffer, candidates, lastAlertTime, postRemaining, postCounter, incidentTag)
    }

    ghost predicate Valid()
      reads this
    {
      && accidentCounter >= 0
      && |frameBuffer| <= FrameBufferSize
      && |candidates| <= CandidateFramesSize
      && 0 <= postRemaining <= PostCaptureFrames
      && postCounter >= 0
      && (incidentTag.None? ==> postRemaining == 0 && postCounter == 0)
      && (incidentTag.Some? ==> postRemaining + postCounter == PostCaptureFrames)
    }

    constructor ()
      ensures accidentCounter == 0 && frameBuffer == [] && candidates == [] && lastAlertTime == 0.0
      ensures postRemaining == 0 && postCounter == 0 && incidentTag == None
    {
      accidentCounter := 0;
      frameBuffer := [];
      candidates := [];
      lastAlertTime := 0.0;
      postRemaining := 0;
      postCounter := 0;
      incidentTag := None;
    }

    /** Buffers the frame and, while a post capture is running, writes the
        next post-accident snapshot. */
    method Buffer(f: Frame) returns (post: Option<Snapshot>)
      requires Valid()
      modifies this
      ensures Valid()
      ensures Value() == Buffered(old(Value()), f.image)
      ensures post == PostSnapshot(old(Value()), f)
    {
      post := PostSnapshot(Value(), f);
      frameBuffer := PushBounded(frameBuffer, f.image, FrameBufferSize);
      if postRemaining > 0 && incidentTag.Some? {
        postRemaining := postRemaining - 1;
        postCounter := postCounter + 1;
      }
    }

    /** Records an accident frame as a candidate and advances the counter,
        or resets the counter. */
    method RecordAnalysis(st: FrameStats, ratio: real, annotated: Image)
      requires Valid()
      modifies this
      ensures Valid()
      ensures Value() == Recorded(old(Value()), st, ratio, annotated)
    {
      if IsAccidentFrame(st) {
        var severity := FrameSeverity(st);
        var candidate := Candidate(severity, SeverityScore(severity), ratio, VictimsEstimated(st),
                                   st.persons, st.collision, st.primaryVehicle, annotated);
        candidates := PushBounded(candidates, candidate, CandidateFramesSize);
        accidentCounter := accidentCounter + 1;
      } else {
        accidentCounter := 0;
      }
    }

    /** The first half of detect_accident for a decoded frame: buffer the
        frame, take a post-accident snapshot while a capture is running,
        count the detections, and record the frame as a candidate (advancing
        the counter) or reset the counter. */
    method Record(f: Frame) returns (post: Option<Snapshot>)
      requires Valid()
      modifies this
      ensures Valid()
      ensures Value() == Intake(old(Value()), f)
      ensures post == PostSnapshot(old(Value()), f)
    {
      post := Buffer(f);
      var st, ratio := AnalyzeFrame(f.detections);
      RecordAnalysis(st, ratio, f.annotated);
    }

    /** The send path of detect_accident: report the best candidate, save
        the pre-accident and main snapshots, start the post capture, send,
        and reset for the cooldown whatever the backend replied. */
    method Send(cameraId: string, f: Frame) returns (sent: Sent, response: AnalysisResponse)
      requires Valid() && candidates != []
      modifies this
      ensures Valid()
      ensures Value() == AfterSend(old(Value()), cameraId, f)
      ensures sent == Dispatch(old(Value()), cameraId, f)
      ensures response == AnalysisResponse("Live accident confirmed. Severity=" + sent.payload.severity + ".",
                                           |ReplyIds(f.reply)|, ReplyIds(f.reply))
    {
      // The report, the tag, the pre-accident and main snapshots and the
      // payload are all taken from the state before the reset.
      sent := Dispatch(Value(), cameraId, f);
      incidentTag := Some(IncidentTag(cameraId, f.now));
      postRemaining := PostCaptureFrames;
      postCounter := 0;
      var incidentIds := ReplyIds(f.reply);
      lastAlertTime := f.now;
      accidentCounter := 0;
      candidates := [];
      response := AnalysisResponse("Live accident confirmed. Severity=" + sent.payload.severity + ".", |incidentIds|, incidentIds);
    }

    /** detect_accident once the frame is decoded and the camera's state is
        at hand: record the frame, then decide on confirmation and cooldown.
        `s0` names the state before the call. */
    method Observe(cameraId: string, f: Frame, ghost s0: CameraStateValue) returns (out: FrameOutcome)
      requires Valid() && Value() == s0
      modifies this
      ensures Valid()
      ensures Value() == Next(s0, cameraId, f)
      ensures out == Outcome(s0, cameraId, f)
    {
      var post := Record(f);

      var finalDecision := accidentCounter >= AccidentConfirmFrames;
      var inCooldown := InCooldown(lastAlertTime, f.now);
      if !finalDecision {
        return FrameOutcome(AnalysisResponse(NotConfirmedMessage, 0, []), post, None);
      }
      if inCooldown {
        return FrameOutcome(AnalysisResponse(CooldownMessage, 0, []), post, None);
      }
      // The confirmed frame was itself recorded, so there is a candidate:
      // the fallback to the current frame is never taken.
      var sent, response := Send(cameraId, f);
      out := FrameOutcome(response, post, Some(sent));
    }
  }

  /** camera_states and the endpoint that uses it. */
  class LiveService {
    var cameras: map<string, CameraState>
    /** The state objects this service owns. */
    ghost var repr: set<CameraState>

    ghost predicate Valid()
      reads this, repr
    {
      && (forall id :: id in cameras ==> cameras[id] in repr && cameras[id].Valid())
      && (forall a, b :: a in cameras && b in cameras && a != b ==> cameras[a] != cameras[b])
    }

    constructor ()
      ensures Valid() && cameras == map[] && repr == {}
    {
      cameras := map[];
      repr := {};
    }

    /** get_camera_state: the camera's state, created fresh the first time
        the camera is seen. */
    method GetCameraState(cameraId: string) returns (st: CameraState)
      requires Valid()
      modifies this
      ensures Valid()
      ensures cameraId in cameras && st == cameras[cameraId] && st in repr
      ensures cameraId in old(cameras) ==> cameras == old(cameras) && repr == old(repr)
      ensures cameraId !in old(cameras) ==>
        fresh(st) && st.Value() == FreshState && cameras == old(cameras)[cameraId := st] && repr == old(repr) + {st}
    {
      if cameraId !in cameras {
        st := new CameraState();
        cameras := cameras[cameraId := st];
        repr := repr + {st};
      } else {
        st := cameras[cameraId];
      }
    }

    /** detect_accident: an undecodable frame changes nothing; otherwise the
        camera's state (fresh if the camera is new) takes one step, and no
        other camera's state changes. */
    method DetectAccident(cameraId: string, frame: Option<Frame>) returns (out: FrameOutcome)
      requires Valid()
      modifies this, repr
      ensures Valid()
      ensures frame.None? ==> out == FrameOutcome(AnalysisResponse(DecodeFailedMessage, 0, []), None, None) && cameras == old(cameras)
      ensures frame.Some? ==> cameras.Keys == old(cameras).Keys + {cameraId}
      ensures frame.Some? ==>
        var before := if cameraId in old(cameras) then old(cameras[cameraId].Value()) else FreshState;
        cameras[cameraId].Value() == Next(before, cameraId, frame.value) && out == Outcome(before, cameraId, frame.value)
      ensures forall id :: id in old(cameras) && (frame.None? || id != cameraId) ==>
        id in cameras && cameras[id] == old(cameras[id]) && cameras[id].Value() == old(cameras[id].Value())
    {
      if frame.None? {
        return FrameOutcome(AnalysisResponse(DecodeFailedMessage, 0, []), None, None);
      }
      ghost var before := if cameraId in cameras then cameras[cameraId].Value() else FreshState;
      var st := GetCameraState(cameraId);
      out := ObserveCamera(cameraId, st, frame.value, before);
    }

    /** The camera's own state object takes the step; the map and every
        other camera's state are left as they were. */
    method ObserveCamera(cameraId: string, st: CameraState, f: Frame, ghost s0: CameraStateValue)
      returns (out: FrameOutcome)
      requires Valid() && cameraId in cameras && cameras[cameraId] == st && st.Value() == s0
      modifies st
      ensures Valid() && cameras == old(cameras)
      ensures st.Value() == Next(s0, cameraId, f) && out == Outcome(s0, cameraId, f)
      ensures forall id :: id in cameras && id != cameraId ==> cameras[id].Value() == old(cameras[id].Value())
    {
      out := st.Observe(cameraId, f, s0);
      forall id | id in cameras && id != cameraId
        ensures cameras[id] != st && cameras[id].Value() == old(cameras[id].Value()) && cameras[id].Valid()
      {
      }
    }
  }
}
