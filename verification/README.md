# Smart Accident and Alert System, modelled in Dafny

This project models the core of the Smart Accident and Alert System: a
detection service that watches camera frames and uploaded videos for road
accidents, and a backend that ingests the incidents it reports and alerts
the police and a hospital over WhatsApp. The model covers these parts:

- **Detection** (`detection.dfy`) covers the per-frame rules of the detection service:
  - box overlap and the largest IoU among the kept boxes;
  - counting the detections that score at least 0.3;
  - the single-frame accident and severity ladders;
  - the rule-based injury report with its summary for doctors.
- **Live** (`live.dfy`) is the live endpoint's per-camera state machine:
  - a 30-frame buffer and a 15-entry candidate buffer;
  - the consecutive accident-frame counter and the three-frame confirmation;
  - the 60-second cooldown;
  - the 25-frame post-accident capture;
  - the choice of the best candidate and the reset after a send.
  
  `CameraState` and `LiveService` are classes whose methods update their fields in place.
- **Video** (`video.dfy`) is the video endpoint:
  - pass 1 analyses every third frame and keeps the worst frame that was confirmed after three accident frames in a row;
  - pass 2 saves up to five frames before it, its plotted image, and up to twenty-five frames after it;
  - one incident is then sent.
- **Incidents** (`incidents.dfy`) is the backend's `IncidentService`:
  - find-or-create of the camera by name;
  - normalisation of an untrusted ingest request (severity, timestamp, location, injury JSON);
  - one appended incident with a fresh id;
  - alerts for MAJOR and CRITICAL incidents only;
  - the two queries.
  
  The repositories are classes holding their rows as sequences in id order.
- **Alerts** (`alerts.dfy`) is the backend's `AlertService`:
  - the shared six-line text;
  - the police body, which never carries medical detail;
  - the hospital body, which adds the doctor summary when it is present and not blank;
  - two sends, where neither send's failure stops the other.
- **Pipeline** (`pipeline.dfy`) relates the two services. It models the request body the detection service posts and what the backend stores and sends for it.
- **Entities** and **Common** (`entities.dfy`, `common.dfy`) hold the entities, the DTOs, the enums, and a few string helpers:
  - Java's `isBlank`;
  - the decimal rendering of integers;
  - join and split on a separator.

Several things outside the model are parameters: the object detector's output,
the plotted image, the clock, the unique ids, the backend's reply and the
messaging gateway's outcome. The library functions the backend calls but does not define
are total functions in a `Codec` value:

- timestamp parsing;
- JSON serialisation;
- `Instant` and `Double` rendering.

Where the code and its design description differ, the model follows the code:

- Alerts are sent synchronously, inside `handleIngest`, before it answers. They are not fire-and-forget tasks.
- Resolving the camera is a plain check-then-insert, not an atomic step.
- `handleIngest` always stores both coordinates: the request's, or 0.0 for each when the request has none. So every ingested incident's alert shows a maps link, never "Location unavailable" (`Pipeline.IngestedLocationKnown`).
- A camera seen for the first time is saved with only its name and `active = true`.

## Model

| member | source | states |
|---|---|---|
| Entities.ParseStatus | backend-java/src/main/java/com/smartaccident/backend/incident/IncidentService.java:128 | `IncidentStatus.valueOf` yields a status exactly when the text is one of the three names, and then that status's name is the text |
| Incidents.ParseSeverity | backend-java/src/main/java/com/smartaccident/backend/incident/IncidentService.java:55-63 | the severity whose name is exactly the input; MINOR for null, empty, wrong case or unknown input |
| Incidents.ResponseNamesRoundTrip | backend-java/src/main/java/com/smartaccident/backend/incident/IncidentService.java:139-153 | reading the response's severity and status back by name gives the incident's own; id and camera name are copied |
| Incidents.Responses | backend-java/src/main/java/com/smartaccident/backend/incident/IncidentService.java:130 | one response per incident |
| Incidents.WithNameMembership | backend-java/src/main/java/com/smartaccident/backend/incident/IncidentService.java:37 | the lookup by name returns exactly the stored cameras with that name |
| Incidents.UniqueNamesAtMostOne | backend-java/src/main/java/com/smartaccident/backend/incident/IncidentService.java:37-43 | when camera names are distinct, a lookup by name finds at most one camera |
| Incidents.WithStatusMembers | backend-java/src/main/java/com/smartaccident/backend/incident/IncidentService.java:128 | filtering by status keeps exactly the incidents having that status |
| Incidents.WithStatusOrdered | backend-java/src/main/java/com/smartaccident/backend/incident/IncidentService.java:128 | filtering keeps the incidents in increasing id order |
| Incidents.WithStatusSpec | backend-java/src/main/java/com/smartaccident/backend/incident/IncidentService.java:128 | the two properties of `findByStatus` together |
| Incidents.CameraRepository.FindByName | backend-java/src/main/java/com/smartaccident/backend/incident/IncidentService.java:37 | `Optional` result of `findByName`: empty for no match, the camera for one match, an error for several |
| Incidents.CameraRepository.Save | backend-java/src/main/java/com/smartaccident/backend/incident/IncidentService.java:38-43 | the camera is appended under the next id and the id counter grows |
| Incidents.IncidentRepository.Save | backend-java/src/main/java/com/smartaccident/backend/incident/IncidentService.java:102 | the incident is appended under the next id; ids stay increasing |
| Incidents.IncidentRepository.FindById | backend-java/src/main/java/com/smartaccident/backend/incident/IncidentService.java:134-135 | an incident is found exactly when one with that id is stored, and it is that one |
| Incidents.IncidentRepository.FindByStatus | backend-java/src/main/java/com/smartaccident/backend/incident/IncidentService.java:128 | the stored incidents with that status, in table order |
| Incidents.IncidentService.FindOrCreateCamera | backend-java/src/main/java/com/smartaccident/backend/incident/IncidentService.java:37-43 | the stored camera of that name, with the table and the id counter unchanged, or a new active camera appended under the next id, which then advances; afterwards exactly one camera has that name, and names stay unique |
| Incidents.IncidentService.HandleIngest | backend-java/src/main/java/com/smartaccident/backend/incident/IncidentService.java:27-122 | see the list after this table |
| Incidents.IncidentService.GetIncidents | backend-java/src/main/java/com/smartaccident/backend/incident/IncidentService.java:124-131 | every incident for a null or blank status; for a valid name exactly the stored incidents of that status, in table order (their membership and order are `WithStatusSpec`); an error for an unknown name; always in increasing id order |
| Incidents.IncidentService.GetIncident | backend-java/src/main/java/com/smartaccident/backend/incident/IncidentService.java:133-137 | the stored incident's response exactly when the id is stored; otherwise the error "Incident not found" |
| Alerts.BaseTextLines | backend-java/src/main/java/com/smartaccident/backend/alert/AlertService.java:41-65 | when no field breaks a line, the shared text splits into exactly the lines Severity, Victims, Camera, Time, Location and Snapshot, in that order |
| Alerts.PoliceBodyLines | backend-java/src/main/java/com/smartaccident/backend/alert/AlertService.java:67-71 | the police body is its title line and the six shared lines, and does not depend on the doctor summary |
| Alerts.HospitalBodyLines | backend-java/src/main/java/com/smartaccident/backend/alert/AlertService.java:73-84 | the hospital body is its title line and the six shared lines; a blank line, the report heading and the summary's lines follow exactly when the summary is present and not blank |
| Alerts.HospitalBodyExtendsIff | backend-java/src/main/java/com/smartaccident/backend/alert/AlertService.java:74-79 | the hospital body begins with the title and shared text, and has more after it exactly when the summary is present and not blank |
| Alerts.SendsAreIndependent | backend-java/src/main/java/com/smartaccident/backend/alert/AlertService.java:87-99 | the outcome of one send changes nothing about the other attempt |
| Alerts.AlertService.InitIfNeeded | backend-java/src/main/java/com/smartaccident/backend/alert/AlertService.java:28-36 | the client is initialised once; later calls leave the count at one |
| Alerts.AlertService.SendWhatsApp | backend-java/src/main/java/com/smartaccident/backend/alert/AlertService.java:87-99 | one attempt is appended, whatever its outcome; the call always returns |
| Alerts.AlertService.SendAlertMessages | backend-java/src/main/java/com/smartaccident/backend/alert/AlertService.java:38-85 | the client is initialised and exactly the police attempt and then the hospital attempt are appended |
| Detection.OverlapSymmetric | ai-service-python/app/main.py:98-110 | `boxes_overlap` does not depend on argument order |
| Detection.OverlapIffSharedPoint | ai-service-python/app/main.py:98-110 | two well-formed boxes overlap exactly when some point lies in both; touching edges count |
| Detection.PairRatioInUnit | ai-service-python/app/main.py:127-154 | every ratio the loop can record is an IoU in [0, 1] |
| Detection.MaxPairRatioIsMax | ai-service-python/app/main.py:116-155 | the reference maximum is at least every pair's ratio, and is 0 or some pair's ratio |
| Detection.MaxPairRatioSpec | ai-service-python/app/main.py:116-155 | the reference maximum lies in [0, 1] and is 0 for fewer than two boxes |
| Detection.MaxRatioUnique | ai-service-python/app/main.py:116-155 | only one value is the maximum ratio |
| Detection.ScanRow | ai-service-python/app/main.py:132-154 | the inner loop raises the running maximum to at least the ratio of box i against every later box, and only to such a ratio |
| Detection.MaxOverlapRatio | ai-service-python/app/main.py:116-155 | `compute_max_overlap_ratio` returns the largest pair IoU: in [0, 1], 0 for fewer than two boxes, at least every pair's ratio, and attained by some pair |
| Detection.DangerSplits | ai-service-python/app/main.py:338-345 | the danger count is the vehicle count plus the person count |
| Detection.FirstKeptSpec | ai-service-python/app/main.py:340-343 | a primary vehicle type exists exactly when a vehicle was counted, and it is a vehicle class |
| Detection.FirstKeptIsFirst | ai-service-python/app/main.py:320-343 | the primary vehicle type is the class of a kept vehicle detection with no kept vehicle detection before it; with no kept vehicle it stays unset |
| Detection.CountObjects | ai-service-python/app/main.py:316-355 | the counting loops yield the counts, the first vehicle and the kept boxes of the reference definition; collision holds exactly when two kept boxes overlap |
| Detection.AnalyzeFrame | ai-service-python/app/main.py:316-358 | the frame statistics and the maximum IoU of the kept boxes |
| Detection.FrameLadder | ai-service-python/app/main.py:366-387 | see the list after this table |
| Detection.MinorAccidentFrameExists | ai-service-python/app/main.py:366-383 | an accident frame can still be rated MINOR (two separate vehicles and one person) |
| Detection.MechanismFallback | ai-service-python/app/main.py:195-204 | the mechanism is "Road traffic accident" exactly when there is no collision, no vehicle and no person |
| Detection.DoctorSummaryShape | ai-service-python/app/main.py:242-250 | the summary begins with the mechanism, is longer than it, and is never blank |
| Detection.BuildInjuryReport | ai-service-python/app/main.py:161-252 | the priority is one of four levels; the victim count is copied and the posture is "unknown" |
| Detection.PriorityFollowsSeverity | ai-service-python/app/main.py:185-238 | HIGH or CRITICAL priority exactly for MAJOR or CRITICAL; LOW for anything else unknown; three preparation steps for serious severities, one otherwise |
| Detection.InjuriesShape | ai-service-python/app/main.py:206-223 | three regions for a serious severity and two otherwise; Pelvis/Spine appears exactly when there are two or more victims |
| Detection.InjuryReportShape | ai-service-python/app/main.py:161-252 | the whole report: priority, injury and preparation counts, mechanism fallback, a summary that starts with the mechanism and is not blank |
| Detection.ReplyIds | ai-service-python/app/main.py:527-544 | at most one incident id, present exactly when the backend returned one, and it is that id |
| Live.PushBounded | ai-service-python/app/main.py:71-75 | `deque(maxlen).append` keeps the most recent `maxlen` elements, newest last |
| Live.LastN | ai-service-python/app/main.py:481 | `list(s)[-n:]` is the last n elements, or all when fewer |
| Live.BestIndex | ai-service-python/app/main.py:438-443 | the index of `max` over the candidates is in range |
| Live.BestIndexIsFirstMax | ai-service-python/app/main.py:437-443 | the chosen candidate is a first maximum: nothing outranks it, and it outranks every earlier candidate |
| Live.IntakeKeepsInv | ai-service-python/app/main.py:288-411 | buffering and recording a frame keep the state's bounds |
| Live.StepKeepsInv | ai-service-python/app/main.py:288-549 | each call keeps the buffers within 30 frames and 15 candidates; the post capture counts down from 25 while its counter counts up |
| Live.StepCounter | ai-service-python/app/main.py:409-434 | see the list after this table |
| Live.CooldownBlocks | ai-service-python/app/main.py:416-434 | a camera that never alerted is not in cooldown; within 60 seconds of an alert nothing is sent and the alert time is kept |
| Live.SendResets | ai-service-python/app/main.py:502-549 | after a send: alert time is now, counter 0, no candidates, a fresh 25-frame capture under the new tag; at most one id is reported |
| Live.ReplyChangesResponseOnly | ai-service-python/app/main.py:527-549 | the backend's reply, or its absence, changes neither the next state nor what is sent; the reset happens whatever came back |
| Live.DispatchIsBest | ai-service-python/app/main.py:436-525 | the incident reports a first-maximum candidate (its severity, victims and plotted image); there are one to five pre-accident snapshots ending with the newest buffered frame; the URL names the main snapshot |
| Live.SentIsBestCandidate | ai-service-python/app/main.py:389-461 | what is sent comes from the candidates held once this frame is recorded, and the newest buffered frame is this frame |
| Live.AlertNeedsThreeAccidentFrames | ai-service-python/app/main.py:409-421 | from a zero counter, an alert is sent only on the last of at least three accident frames in a row |
| Live.CameraState.Buffer | ai-service-python/app/main.py:288-303 | the frame is buffered, and a running post capture writes the next numbered snapshot and counts down |
| Live.CameraState.RecordAnalysis | ai-service-python/app/main.py:389-411 | an accident frame is recorded as a candidate and advances the counter; any other frame resets it |
| Live.CameraState.Record | ai-service-python/app/main.py:288-411 | the state after buffering, counting and recording, as the step function defines it |
| Live.CameraState.Send | ai-service-python/app/main.py:436-558 | the best candidate's incident is sent, the cooldown and the post capture start, and the counter and candidates are reset |
| Live.CameraState.Observe | ai-service-python/app/main.py:288-558 | one call on a decoded frame matches the step function: not confirmed, cooldown, or send |
| Live.LiveService.GetCameraState | ai-service-python/app/main.py:65-81 | the camera's state object, created fresh the first time a camera is seen; other cameras' states are untouched |
| Live.LiveService.ObserveCamera | ai-service-python/app/main.py:288-558 | the camera's own state object takes the step; the map and every other camera's state are unchanged |
| Live.LiveService.DetectAccident | ai-service-python/app/main.py:258-558 | an undecodable frame changes nothing; otherwise the map gains at most this camera id, the camera's state takes one step from its stored or fresh state, and no other camera's state changes |
| Video.ScanVideo | ai-service-python/app/main.py:602-737 | the pass-1 loop computes the reference scan over the frames |
| Video.ConsiderFrame | ai-service-python/app/main.py:690-736 | an analysed frame advances or resets the counter; a confirmed frame ranking strictly higher becomes the best |
| Video.ScanIndex | ai-service-python/app/main.py:625-632 | after pass 1 the frame index is the number of frames read |
| Video.StepCases | ai-service-python/app/main.py:630-736 | one frame: a confirmed frame ranking strictly above the best replaces it with all its values; anything else keeps the best |
| Video.ScanScoreZero | ai-service-python/app/main.py:607-615 | no best frame exactly when the best score is 0 |
| Video.ScanBestShape | ai-service-python/app/main.py:696-736 | the kept frame was read, was confirmed, and the kept values are its own |
| Video.ScanBestConfirmed | ai-service-python/app/main.py:696-731 | the kept frame index lies within the frames read and that frame was confirmed when it was read |
| Video.ScanBestHolds | ai-service-python/app/main.py:715-736 | the kept severity, vehicle, victim, collision and person values are those of the kept frame |
| Video.ConfirmedEarlier | ai-service-python/app/main.py:690-700 | whether a frame was confirmed does not depend on the frames read after it |
| Video.ScanFindsBest | ai-service-python/app/main.py:690-731 | pass 1 finds a best frame exactly when some analysed frame is confirmed |
| Video.ConfirmedGivesBest | ai-service-python/app/main.py:696-731 | once any frame is confirmed, pass 1 holds a best frame from then on |
| Video.ConfirmedLast | ai-service-python/app/main.py:690-700 | the newest frame is confirmed exactly when it is analysed and the counter has reached three |
| Video.ScanBestIsMax | ai-service-python/app/main.py:715-731 | no confirmed frame ranks above the kept one on (severity score, overlap ratio) |
| Video.ScanBestIsFirst | ai-service-python/app/main.py:717-721 | every confirmed frame before the kept one ranks strictly below it |
| Video.ScanBestIsFirstAt | ai-service-python/app/main.py:717-731 | a given confirmed frame before the kept one ranks strictly below it |
| Video.WindowSpec | ai-service-python/app/main.py:774-777 | a window holds, in order, the frames numbered max(lo, 1) to min(hi, frame count) |
| Video.LimitsNeverBind | ai-service-python/app/main.py:793-815 | the five-frame and twenty-five-frame limits never stop a frame of either range from being saved |
| Video.SaveInRange | ai-service-python/app/main.py:793-822 | a frame in range is saved as the next numbered snapshot |
| Video.SaveFrame | ai-service-python/app/main.py:785-826 | one frame of pass 2 keeps "saved exactly the frames of the ranges read so far" |
| Video.SaveSnapshots | ai-service-python/app/main.py:774-828 | pass 2 saves exactly the pre range, the main snapshot (when the best frame was plotted) and the post range, early break included |
| Video.SavedEverything | ai-service-python/app/main.py:824-826 | stopping after the end of the post range loses nothing |
| Video.PreShotsBeforeBest | ai-service-python/app/main.py:775-800 | the pre-accident snapshots are the (at most five) frames just before the best frame, oldest first |
| Video.PostShotsAfterBest | ai-service-python/app/main.py:777-822 | the post-accident snapshots are the (at most twenty-five) frames just after the best frame, in order |
| Video.AnalyzeVideo | ai-service-python/app/main.py:565-879 | the endpoint computes the reference result of pass 1, pass 2 and the send |
| Video.Finish | ai-service-python/app/main.py:740-879 | everything after pass 1 yields the reference result |
| Video.VideoSendsIffConfirmed | ai-service-python/app/main.py:690-745 | once the video has been read by both passes, an incident is sent exactly when some analysed frame is confirmed; otherwise the response is "No accident detected in video." (the error exits before that are under "Left out") |
| Video.ScanKeepsBestRanked | ai-service-python/app/main.py:715-736 | the kept frame is the first confirmed frame of the highest rank, and the kept values are its own |
| Video.SentDescribesHeld | ai-service-python/app/main.py:838-873 | when the pass 1 variables hold a frame's values and the score is nonzero, an incident is sent and it carries that frame's severity, victims, injury report and plotted image |
| Video.SentDescribesKept | ai-service-python/app/main.py:838-873 | when the kept frame is best-ranked and its values are held, any incident sent describes a best-ranked frame |
| Video.VideoSendsBestFrame | ai-service-python/app/main.py:753-851 | the incident describes the first confirmed frame of the highest rank: its severity, victims and injury report, and a main snapshot exactly when it was plotted |
| Pipeline.IngestedLocationKnown | backend-java/src/main/java/com/smartaccident/backend/incident/IncidentService.java:65-71 | every ingested incident's alert shows a maps link, never "Location unavailable" |
| Pipeline.DetectedSeverityAgrees | ai-service-python/app/main.py:376-386 | see the list after this table |
| Pipeline.DetectedIncidentMessages | ai-service-python/app/services/accident_client.py:27-45 | a posted incident is stored with its severity, victims, snapshot URL and coordinates; the hospital body ends with the report heading and the doctor summary |
| Pipeline.VideoIncidentIngested | ai-service-python/app/main.py:840-851 | the video incident is stored under the best frame's severity, and its hospital message carries the report's summary |

Details for the rows that say "see the list after this table":

- **Incidents.IncidentService.HandleIngest** ensures the following:
  - exactly one incident is appended under the next id, and earlier incidents are untouched;
  - the new incident's status is DETECTED;
  - it references the one camera of that name;
  - its severity, timestamp, location and injury JSON follow the fallback rules;
  - exactly the police and hospital attempts are appended for MAJOR and CRITICAL incidents, and nothing otherwise;
  - a MAJOR or CRITICAL incident leaves the alert client initialised exactly once; any other incident leaves the client as it was, and an initialised client is never reset;
  - the incident id counter advances by one, and the camera id counter advances only when a camera is created;
  - the response is the new incident's response.
- **Detection.FrameLadder** ensures the following:
  - the severity is one of four names;
  - MAJOR and CRITICAL frames are accident frames, and so are MEDIUM frames when the counts come from one frame;
  - the scores are 1 to 4, with a score of 3 or more exactly for a collision with two vehicles or a person;
  - at least one victim is estimated.
- **Live.StepCounter** ensures the following:
  - the counter grows on an accident frame and resets otherwise;
  - an incident is sent exactly for a confirmed frame outside the cooldown;
  - the not-confirmed and cooldown responses are the ones the code returns.
- **Pipeline.DetectedSeverityAgrees** ensures the following:
  - the severity the detector names is stored as exactly that enum constant;
  - the backend alerts exactly for the frames scored 3 or more;
  - those are exactly the frames whose report asks for HIGH or CRITICAL priority.

## Left out

- Object detection, plotting, image decoding and video reading are library calls. Detections, plotted images and frame contents are inputs.
- When plotting fails, the live endpoint falls back to a copy of the frame. That fallback is part of the plotted-image input.
- Saving files is left out: the uploaded video, the snapshots written with `imwrite`, and the directories. A failed write is not modelled. For example, the model always counts a post-accident snapshot, and the live main-snapshot URL is never `None`.
- `uuid.uuid4()` in snapshot names is an input (`snapshotId`).
- HTTP transport is left out: the FastAPI and Spring controllers, `health`, the static-file mounts, CORS.
- `sendTestAlert` is a manual check of the messaging setup and carries no logic.
- `IncidentController.java` and `DebugController.java` are not part of this model.
- The Twilio SDK is left out. Each send's outcome is a boolean input, and `Twilio.init` is assumed not to throw.
- The body of `send_incident_to_backend` is reduced to its outcome, a `Reply` input. This covers the HTTP post, the timeout, the swallowed exception and the id extraction.
- The ISO text of the send time is a parameter. The body's `source` and `time` keys carry nothing the backend stores.
- JPA and transactions are left out; repositories are in-memory tables in id order.
- Concurrency is left out: two ingests racing on a new camera name, and parallel calls of the detection endpoints.
- Floating point is left out. Box coordinates, IoU and clock readings are exact reals, and `int(time.time())` is truncation toward zero.
- `OffsetDateTime.parse`, Jackson's `writeValueAsString`, `Instant.toString` and `Double.toString` are uninterpreted functions of the `Codec`. Their output formats are not specified.
- The `Severity` and `IncidentStatus` enum files are not part of this model. Their constants are taken as MINOR, MEDIUM, MAJOR, CRITICAL and DETECTED, ACKNOWLEDGED, RESOLVED, the names the rest of the system writes and parses. The backend services themselves only use MINOR, MAJOR, CRITICAL and DETECTED; MEDIUM reaches them only from the detector's severity names, and ACKNOWLEDGED and RESOLVED only as status names in `getIncidents`.
- The entity, DTO and repository files are reflected only in the datatypes and repository classes.
- `Hospital` and `PoliceStation` are unused by the core and not part of this model.
- The video endpoint's three HTTP 500 exits are left out: the upload cannot be saved ("Could not save video", ai-service-python/app/main.py:582-588), the video cannot be opened for pass 1 ("Could not open video", ai-service-python/app/main.py:595-598), or it cannot be reopened for pass 2 ("Could not open video for snapshots", ai-service-python/app/main.py:765-768). `Video.AnalyzeVideo` takes the frames as already read. The last exit comes after pass 1 may have confirmed an accident, and then nothing is sent, so `Video.VideoSendsIffConfirmed` holds only for a video both passes could read.
- A null `cameraId` in the ingest request is left out. The Java DTO field is a nullable `String`, but `IngestRequest.cameraId` is a `string`, so the model does not cover looking up or creating a camera with a null name.
- `accident_frames_total` in the video endpoint is only logged, so it is not modelled.
- The live fallback to the current frame when there is no candidate cannot be reached: a confirmed frame was itself just recorded as a candidate. `Live.CameraState.Observe` relies on that and does not model the fallback.
- Incidents.Responses: states only the length. Each element is `ToResponse` of the matching incident, by definition, and the content properties are proved about `ToResponse` in `Incidents.ResponseNamesRoundTrip`.
