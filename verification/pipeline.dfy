/** The path from the detection service to the backend: the JSON body
    send_incident_to_backend posts, read by the backend as an ingest
    request, and what ingestion and alerting make of an incident the
    detector reported. */
module Pipeline {
  import opened Common
  import opened Entities
  import opened Alerts
  import opened Incidents
  import opened Detection
  import opened Video

  function InjuryJson(j: Injury): Json
  {
    JObject([("region", JString(j.region)), ("risk", JString(j.risk))])
  }

  /** The report dictionary as the backend deserialises it, keys in the
      order the dictionary is built. */
  function ReportJson(r: InjuryReport): Json
  {
    var injuries := seq(|r.estimatedInjuries|, k requires 0 <= k < |r.estimatedInjuries| => InjuryJson(r.estimatedInjuries[k]));
    var prep := seq(|r.recommendedPreparation|, k requires 0 <= k < |r.recommendedPreparation| => JString(r.recommendedPreparation[k]));
    JObject([
      ("priorityLevel", JString(r.priorityLevel)),
      ("mechanismOfInjury", JString(r.mechanismOfInjury)),
      ("estimatedInjuries", JArray(injuries)),
      ("victimInfo", JObject([("estimatedVictims", JNumber(r.estimatedVictims as real)), ("posture", JString(r.posture))])),
      ("recommendedPreparation", JArray(prep)),
      ("summaryForDoctors", JString(r.summaryForDoctors))])
  }

  /** The ingest request the backend reads from the posted body; `timestamp`
      is the ISO text of the send time. The body's "source" key has no
      field in the request and is dropped. */
  function ToRequest(p: Payload, timestamp: string): IngestRequest
  {
    IngestRequest(p.cameraId, Some(timestamp), true, Some(p.severity), p.victims,
                  Some(Location(p.locationLat, p.locationLng)), p.snapshotUrl,
                  Some(ReportJson(p.likelyInjuries)), Some(p.doctorReportSummary))
  }

  /** Every incident handleIngest builds carries both coordinates, so its
      alert always shows a maps link and never "Location unavailable". */
  lemma IngestedLocationKnown(req: IngestRequest, camera: Camera, codec: Codec, now: Instant)
    ensures var i := BuildIncident(req, camera, codec, now);
      var lat := if req.location.Some? then req.location.value.lat else 0.0;
      var lng := if req.location.Some? then req.location.value.lng else 0.0;
      && LocationText(i, codec) == MapsPrefix + codec.doubleToString(lat) + "," + codec.doubleToString(lng)
      && LocationText(i, codec) != "Location unavailable"
  {
    var i := BuildIncident(req, camera, codec, now);
    assert LocationText(i, codec)[0] == 'h';
  }

  /** The two services agree on severity: the name the detector gives a
      frame is an enum name, the backend stores exactly that constant, and
      it alerts exactly for the frames the detector scores 3 or more, which
      are the frames whose report asks for HIGH or CRITICAL priority. */
  lemma DetectedSeverityAgrees(st: FrameStats)
    ensures var sev := FrameSeverity(st);
      var stored := ParseSeverity(Some(sev));
      && SeverityName(stored) == sev
      && (IsSerious(stored) <==> SeverityScore(sev) >= 3)
      && (IsSerious(stored) <==> PriorityLevel(sev) in {"HIGH", "CRITICAL"})
  {
    FrameLadder(st);
    PriorityFollowsSeverity(FrameSeverity(st));
  }

  /** An incident the detector reports with a known severity name and a
      non-blank doctor summary is stored under that severity, with the
      victims, snapshot URL and coordinates it was sent with, and the
      hospital message ends with the injury-report section carrying that
      very summary. */
  lemma DetectedIncidentMessages(p: Payload, timestamp: string, camera: Camera, codec: Codec, now: Instant)
    requires p.severity in {"MINOR", "MEDIUM", "MAJOR", "CRITICAL"}
    requires !IsBlank(p.doctorReportSummary)
    ensures var i := BuildIncident(ToRequest(p, timestamp), camera, codec, now);
      && SeverityName(i.severity) == p.severity
      && i.victimCount == p.victims
      && i.snapshotUrl == p.snapshotUrl
      && i.locationLat == Some(p.locationLat) && i.locationLng == Some(p.locationLng)
      && HospitalBody(i, codec)
         == HospitalTitle + "\n" + BaseText(i, codec) + "\n\n" + ReportHeading + "\n" + p.doctorReportSummary
  {
  }

  /** The incident the video endpoint sends reaches the backend under the
      best frame's severity, and the hospital message carries the report's
      summary. */
  lemma VideoIncidentIngested(looks: seq<Look>, images: seq<Image>, now: real, snapshotId: string, reply: Reply,
                              timestamp: string, camera: Camera, codec: Codec, clock: Instant)
    ensures var sent := VideoResult(Scan(looks), images, now, snapshotId, reply).1;
      sent.Some? ==>
        var i := BuildIncident(ToRequest(sent.value.payload, timestamp), camera, codec, clock);
        && SeverityName(i.severity) == sent.value.payload.severity
        && HospitalBody(i, codec)
           == HospitalTitle + "\n" + BaseText(i, codec) + "\n\n" + ReportHeading + "\n"
              + sent.value.payload.likelyInjuries.summaryForDoctors
  {
    var p := Scan(looks);
    var sent := VideoResult(p, images, now, snapshotId, reply).1;
    if sent.Some? {
      ScanBestHolds(looks);
      var b := p.bestIndex.value - 1;
      FrameLadder(looks[b].st);
      var payload := sent.value.payload;
      InjuryReportShape(p.bestSeverity, p.bestVehicle, p.bestVictims, p.bestCollision, p.bestPersons);
      DetectedIncidentMessages(payload, timestamp, camera, codec, clock);
    }
  }
}
