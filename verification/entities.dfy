/** The backend's records: the camera and incident entities, the ingest
    request and the response DTO, the two enums, and the library behaviour
    (date parsing, JSON serialisation, Instant and Double rendering) the
    service relies on but does not define. Java `null` is `None`. */
module Entities {
  import opened Common

  /** A point on the time line (java.time.Instant), kept abstract. */
  type Instant = int

  datatype Severity = MINOR | MEDIUM | MAJOR | CRITICAL

  datatype IncidentStatus = DETECTED | ACKNOWLEDGED | RESOLVED

  /** Enum.name() of a severity. */
  function SeverityName(s: Severity): string
  {
    match s
    case MINOR => "MINOR"
    case MEDIUM => "MEDIUM"
    case MAJOR => "MAJOR"
    case CRITICAL => "CRITICAL"
  }

  /** Enum.name() of a status. */
  function StatusName(s: IncidentStatus): string
  {
    match s
    case DETECTED => "DETECTED"
    case ACKNOWLEDGED => "ACKNOWLEDGED"
    case RESOLVED => "RESOLVED"
  }

  /** IncidentStatus.valueOf: the constant whose name is exactly `name`,
      None where Java throws IllegalArgumentException. */
  function ParseStatus(name: string): (r: Option<IncidentStatus>)
    ensures r.Some? ==> StatusName(r.value) == name
    ensures r.None? <==> forall st :: name != StatusName(st)
  {
    if name == "DETECTED" then Some(DETECTED)
    else if name == "ACKNOWLEDGED" then Some(ACKNOWLEDGED)
    else if name == "RESOLVED" then Some(RESOLVED)
    else None
  }

  /** Whether the alert threshold is crossed. */
  predicate IsSerious(s: Severity)
  {
    s == MAJOR || s == CRITICAL
  }

  /** The CameraStream entity. */
  datatype Camera = Camera(
    id: int,
    name: string,
    rtspUrl: Option<string>,
    locationLat: Option<real>,
    locationLng: Option<real>,
    city: Option<string>,
    active: bool)

  /** The Incident entity. The location and camera are nullable in the
      entity even though ingestion always fills them. */
  datatype Incident = Incident(
    id: int,
    camera: Option<Camera>,
    timestamp: Instant,
    severity: Severity,
    victimCount: int,
    likelyInjuriesJson: string,
    doctorReportSummary: Option<string>,
    status: IncidentStatus,
    locationLat: Option<real>,
    locationLng: Option<real>,
    snapshotUrl: Option<string>)

  /** An arbitrary JSON value as Jackson deserialises it into `Object`. */
  datatype Json =
    | JNull
    | JBool(b: bool)
    | JNumber(n: real)
    | JString(s: string)
    | JArray(items: seq<Json>)
    | JObject(fields: seq<(string, Json)>)

  datatype Location = Location(lat: real, lng: real)

  /** IncidentIngestRequest as the controller receives it. */
  datatype IngestRequest = IngestRequest(
    cameraId: string,
    timestamp: Option<string>,
    accident: bool,
    severity: Option<string>,
    victimCount: int,
    location: Option<Location>,
    snapshotUrl: Option<string>,
    likelyInjuries: Option<Json>,
    doctorReportSummary: Option<string>)

  /** IncidentResponse, the DTO handed back to HTTP callers. */
  datatype IncidentResponse = IncidentResponse(
    id: int,
    cameraName: string,
    severity: string,
    victimCount: int,
    status: string,
    timestamp: string,
    locationLat: Option<real>,
    locationLng: Option<real>,
    snapshotUrl: Option<string>,
    likelyInjuriesJson: string,
    doctorReportSummary: Option<string>)

  /** Library behaviour the services call but whose output format is not part
      of this model: OffsetDateTime.parse(..).toInstant() (None where it
      throws), ObjectMapper.writeValueAsString (None where it throws
      JsonProcessingException), Object.toString, Instant.toString and
      Double.toString. */
  datatype Codec = Codec(
    parseInstant: string -> Option<Instant>,
    writeJson: Json -> Option<string>,
    jsonToString: Json -> string,
    instantToString: Instant -> string,
    doubleToString: real -> string)
}
