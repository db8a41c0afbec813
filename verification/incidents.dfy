/** IncidentService with its two repositories. Each repository is an
    in-memory table in id order whose ids come from a counter that only
    grows (the database's IDENTITY column). Ingestion resolves the camera by
    a plain check-then-insert, normalises the untrusted request, appends one
    incident and, for MAJOR and CRITICAL incidents only, calls the alert
    service before answering. */
module Incidents {
  import opened Common
  import opened Entities
  import opened Alerts

  // ---------------------------------------------------------------------
  // Normalisation of the untrusted request
  // ---------------------------------------------------------------------

  /** Severity.valueOf with the MINOR fallback: the constant whose name is
      exactly the input, and MINOR for anything else (null, empty, other
      case, unknown token). */
  function ParseSeverity(raw: Option<string>): (r: Severity)
    ensures forall s :: raw == Some(SeverityName(s)) ==> r == s
    ensures raw != Some(SeverityName(r)) ==> r == MINOR
  {
    if raw == Some("MINOR") then MINOR
    else if raw == Some("MEDIUM") then MEDIUM
    else if raw == Some("MAJOR") then MAJOR
    else if raw == Some("CRITICAL") then CRITICAL
    else MINOR
  }

  /** The parsed instant, or `now` when the text is missing or does not parse. */
  function ResolveTimestamp(raw: Option<string>, codec: Codec, now: Instant): Instant
  {
    if raw.Some? && codec.parseInstant(raw.value).Some? then codec.parseInstant(raw.value).value else now
  }

  /** The stored likelyInjuries text: "[]" when absent, the JSON rendering
      when serialisation succeeds, the toString rendering otherwise. */
  function InjuriesJson(raw: Option<Json>, codec: Codec): string
  {
    if raw.None? then "[]"
    else if codec.writeJson(raw.value).Some? then codec.writeJson(raw.value).value
    else codec.jsonToString(raw.value)
  }

  /** The camera the ingestion creates for a name it has not seen. */
  function NewCamera(id: int, name: string): Camera
  {
    Camera(id, name, None, None, None, None, true)
  }

  /** The incident handleIngest builds, before the repository assigns its id. */
  function BuildIncident(req: IngestRequest, camera: Camera, codec: Codec, now: Instant): Incident
  {
    var lat := if req.location.Some? then req.location.value.lat else 0.0;
    var lng := if req.location.Some? then req.location.value.lng else 0.0;
    Incident(
      0, Some(camera), ResolveTimestamp(req.timestamp, codec, now), ParseSeverity(req.severity),
      req.victimCount, InjuriesJson(req.likelyInjuries, codec), req.doctorReportSummary,
      DETECTED, Some(lat), Some(lng), req.snapshotUrl)
  }

  /** The DTO for an incident: enums rendered by name, all else copied. */
  function ToResponse(i: Incident, codec: Codec): IncidentResponse
    requires i.camera.Some?
  {
    IncidentResponse(
      i.id, i.camera.value.name, SeverityName(i.severity), i.victimCount, StatusName(i.status),
      codec.instantToString(i.timestamp), i.locationLat, i.locationLng, i.snapshotUrl,
      i.likelyInjuriesJson, i.doctorReportSummary)
  }

  /** The response loses nothing the enums carry: reading its severity and
      status back by name gives the incident's own. */
  lemma ResponseNamesRoundTrip(i: Incident, codec: Codec)
    requires i.camera.Some?
    ensures ParseSeverity(Some(ToResponse(i, codec).severity)) == i.severity
    ensures ParseStatus(ToResponse(i, codec).status) == Some(i.status)
    ensures ToResponse(i, codec).id == i.id && ToResponse(i, codec).cameraName == i.camera.value.name
  {
  }

  ghost predicate HasCameras(rs: seq<Incident>)
  {
    forall k :: 0 <= k < |rs| ==> rs[k].camera.Some?
  }

  function Responses(rs: seq<Incident>, codec: Codec): (r: seq<IncidentResponse>)
    requires HasCameras(rs)
    ensures |r| == |rs|
  {
    seq(|rs|, k requires 0 <= k < |rs| => ToResponse(rs[k], codec))
  }

  // ---------------------------------------------------------------------
  // Queries over the stored tables
  // ---------------------------------------------------------------------

  /** The cameras called `name`, in table order. */
  function WithName(cs: seq<Camera>, name: string): seq<Camera>
    decreases |cs|
  {
    if cs == [] then []
    else WithName(cs[..|cs| - 1], name) + (if cs[|cs| - 1].name == name then [cs[|cs| - 1]] else [])
  }

  lemma {:induction false} WithNameMembership(cs: seq<Camera>, name: string)
    ensures forall c :: c in WithName(cs, name) <==> c in cs && c.name == name
    decreases |cs|
  {
    if cs != [] {
      var init := cs[..|cs| - 1];
      WithNameMembership(init, name);
      assert cs == init + [cs[|cs| - 1]];
    }
  }

  ghost predicate UniqueNames(cs: seq<Camera>)
  {
    forall j, k :: 0 <= j < k < |cs| ==> cs[j].name != cs[k].name
  }

  /** Distinct names mean a lookup by name finds at most one camera. */
  lemma {:induction false} UniqueNamesAtMostOne(cs: seq<Camera>, name: string)
    requires UniqueNames(cs)
    ensures |WithName(cs, name)| <= 1
    decreases |cs|
  {
    if cs != [] {
      var init := cs[..|cs| - 1];
      var last := cs[|cs| - 1];
      assert UniqueNames(init);
      UniqueNamesAtMostOne(init, name);
      if last.name == name {
        forall k | 0 <= k < |init| ensures init[k].name != name {
          assert cs[k] == init[k];
        }
        WithNameNone(init, name);
      }
    }
  }

  lemma {:induction false} WithNameNone(cs: seq<Camera>, name: string)
    requires forall k :: 0 <= k < |cs| ==> cs[k].name != name
    ensures WithName(cs, name) == []
    decreases |cs|
  {
    if cs != [] {
      WithNameNone(cs[..|cs| - 1], name);
    }
  }

  /** The incidents with status `st`, in table order. */
  function WithStatus(rs: seq<Incident>, st: IncidentStatus): (r: seq<Incident>)
    ensures HasCameras(rs) ==> HasCameras(r)
    decreases |rs|
  {
    if rs == [] then []
    else WithStatus(rs[..|rs| - 1], st) + (if rs[|rs| - 1].status == st then [rs[|rs| - 1]] else [])
  }

  ghost predicate IdsIncreasing(rs: seq<Incident>)
  {
    forall j, k :: 0 <= j < k < |rs| ==> rs[j].id < rs[k].id
  }

  /** Filtering by status keeps exactly the incidents with that status. */
  lemma {:induction false} WithStatusMembers(rs: seq<Incident>, st: IncidentStatus)
    ensures forall x :: x in WithStatus(rs, st) <==> x in rs && x.status == st
    decreases |rs|
  {
    if rs != [] {
      WithStatusMembers(rs[..|rs| - 1], st);
      assert rs == rs[..|rs| - 1] + [rs[|rs| - 1]];
    }
  }

  /** Filtering by status keeps the incidents in increasing id order. */
  lemma {:induction false} WithStatusOrdered(rs: seq<Incident>, st: IncidentStatus)
    requires IdsIncreasing(rs)
    ensures IdsIncreasing(WithStatus(rs, st))
    decreases |rs|
  {
    if rs != [] {
      var init := rs[..|rs| - 1];
      var last := rs[|rs| - 1];
      assert IdsIncreasing(init);
      WithStatusOrdered(init, st);
      WithStatusMembers(init, st);
      var w := WithStatus(init, st);
      forall x | x in w ensures x.id < last.id {
        var j :| 0 <= j < |init| && init[j] == x;
        assert rs[j] == x;
      }
    }
  }

  /** Filtering by status keeps exactly the incidents with that status, and
      keeps them in increasing id order. */
  lemma WithStatusSpec(rs: seq<Incident>, st: IncidentStatus)
    ensures forall x :: x in WithStatus(rs, st) <==> x in rs && x.status == st
    ensures IdsIncreasing(rs) ==> IdsIncreasing(WithStatus(rs, st))
  {
    WithStatusMembers(rs, st);
    if IdsIncreasing(rs) {
      WithStatusOrdered(rs, st);
    }
  }

  // ---------------------------------------------------------------------
  // Repositories
  // ---------------------------------------------------------------------

  /** CameraStreamRepository. Names are not unique in the table itself. */
  class CameraRepository {
    var rows: seq<Camera>
    var nextId: int

    ghost predicate Valid()
      reads this
    {
      && nextId >= 1
      && (forall k :: 0 <= k < |rows| ==> 1 <= rows[k].id < nextId)
    }

    constructor ()
      ensures Valid() && rows == [] && nextId == 1
    {
      rows := [];
      nextId := 1;
    }

    /** findByName with an Optional result: none, the single match, or the
        error Spring Data raises when several rows match. */
    method FindByName(name: string) returns (r: Result<Option<Camera>, string>)
      ensures |WithName(rows, name)| == 0 ==> r == Ok(None)
      ensures |WithName(rows, name)| == 1 ==> r == Ok(Some(WithName(rows, name)[0]))
      ensures |WithName(rows, name)| >= 2 ==> r.Err?
    {
      var matches: seq<Camera> := [];
      var i := 0;
      while i < |rows|
        invariant 0 <= i <= |rows|
        invariant matches == WithName(rows[..i], name)
      {
        assert rows[..i + 1][..i] == rows[..i];
        if rows[i].name == name {
          matches := matches + [rows[i]];
        }
        i := i + 1;
      }
      assert rows[..i] == rows;
      if |matches| == 0 {
        r := Ok(None);
      } else if |matches| == 1 {
        r := Ok(Some(matches[0]));
      } else {
        r := Err("query did not return a unique result");
      }
    }

    /** Inserts a new camera under the next id. */
    method Save(c: Camera) returns (saved: Camera)
      requires Valid()
      modifies this
      ensures Valid()
      ensures saved == c.(id := old(nextId))
      ensures rows == old(rows) + [saved] && nextId == old(nextId) + 1
    {
      saved := c.(id := nextId);
      rows := rows + [saved];
      nextId := nextId + 1;
    }
  }

  /** IncidentRepository. */
  class IncidentRepository {
    var rows: seq<Incident>
    var nextId: int

    ghost predicate Valid()
      reads this
    {
      && nextId >= 1
      && (forall k :: 0 <= k < |rows| ==> 1 <= rows[k].id < nextId)
      && IdsIncreasing(rows)
    }

    constructor ()
      ensures Valid() && rows == [] && nextId == 1
    {
      rows := [];
      nextId := 1;
    }

    /** Inserts a new incident under the next id. */
    method Save(draft: Incident) returns (saved: Incident)
      requires Valid()
      modifies this
      ensures Valid()
      ensures saved == draft.(id := old(nextId))
      ensures rows == old(rows) + [saved] && nextId == old(nextId) + 1
    {
      saved := draft.(id := nextId);
      rows := rows + [saved];
      nextId := nextId + 1;
    }

    method FindById(id: int) returns (r: Option<Incident>)
      requires Valid()
      ensures r.Some? <==> exists k :: 0 <= k < |rows| && rows[k].id == id
      ensures r.Some? ==> r.value in rows && r.value.id == id
    {
      var i := 0;
      while i < |rows|
        invariant 0 <= i <= |rows|
        invariant forall k :: 0 <= k < i ==> rows[k].id != id
      {
        if rows[i].id == id {
          return Some(rows[i]);
        }
        i := i + 1;
      }
      r := None;
    }

    method FindByStatus(st: IncidentStatus) returns (r: seq<Incident>)
      ensures r == WithStatus(rows, st)
    {
      r := [];
      var i := 0;
      while i < |rows|
        invariant 0 <= i <= |rows|
        invariant r == WithStatus(rows[..i], st)
      {
        assert rows[..i + 1][..i] == rows[..i];
        if rows[i].status == st {
          r := r + [rows[i]];
        }
        i := i + 1;
      }
      assert rows[..i] == rows;
    }
  }

  // ---------------------------------------------------------------------
  // The service
  // ---------------------------------------------------------------------

  class IncidentService {
    const cameraRepo: CameraRepository
    const incidentRepo: IncidentRepository
    const alertService: AlertService
    const codec: Codec

    /** The stored state the service keeps: camera names are unique because
        every camera is created through the find-or-create below, and every
        stored incident references a stored camera. */
    ghost predicate Valid()
      reads cameraRepo, incidentRepo, alertService
    {
      && cameraRepo.Valid() && incidentRepo.Valid() && alertService.Valid()
      && alertService.codec == codec
      && UniqueNames(cameraRepo.rows)
      && (forall k :: 0 <= k < |incidentRepo.rows| ==>
            incidentRepo.rows[k].camera.Some? && incidentRepo.rows[k].camera.value in cameraRepo.rows)
    }

    constructor (alerts: AlertService, codec: Codec)
      requires alerts.Valid() && alerts.codec == codec
      ensures Valid() && fresh(cameraRepo) && fresh(incidentRepo)
      ensures alertService == alerts && this.codec == codec
      ensures cameraRepo.rows == [] && incidentRepo.rows == []
    {
      cameraRepo := new CameraRepository();
      incidentRepo := new IncidentRepository();
      alertService := alerts;
      this.codec := codec;
    }

    /** The camera called `name`: the stored one when it exists (the table is
        left as it was), otherwise a new active camera saved under the next id. */
    method FindOrCreateCamera(name: string) returns (camera: Camera)
      requires Valid()
      modifies cameraRepo
      ensures Valid()
      ensures |old(WithName(cameraRepo.rows, name))| == 1 ==> cameraRepo.rows == old(cameraRepo.rows)
      ensures |old(WithName(cameraRepo.rows, name))| == 0 ==>
                cameraRepo.rows == old(cameraRepo.rows) + [NewCamera(old(cameraRepo.nextId), name)]
      ensures WithName(cameraRepo.rows, name) == [camera]
      ensures forall c :: c in old(cameraRepo.rows) ==> c in cameraRepo.rows
      ensures cameraRepo.nextId == old(cameraRepo.nextId) + (if |old(WithName(cameraRepo.rows, name))| == 0 then 1 else 0)
    {
      ghost var oldRows := cameraRepo.rows;
      UniqueNamesAtMostOne(oldRows, name);
      WithNameMembership(oldRows, name);
      var found := cameraRepo.FindByName(name);
      if found.Err? {
        assert false;
      }
      if found.value.Some? {
        camera := found.value.value;
      } else {
        camera := cameraRepo.Save(NewCamera(0, name));
        assert cameraRepo.rows[..|oldRows|] == oldRows;
      }
    }

    /** handleIngest. `now` is the clock reading used when the timestamp does
        not parse; the two booleans are the gateway's outcomes for the police
        and hospital sends, used only when an alert goes out. */
    method HandleIngest(req: IngestRequest, now: Instant, policeDelivered: bool, hospitalDelivered: bool)
      returns (resp: IncidentResponse)
      requires Valid()
      modifies cameraRepo, incidentRepo, alertService
      ensures Valid()
      // camera find-or-create
      ensures |old(WithName(cameraRepo.rows, req.cameraId))| == 1 ==> cameraRepo.rows == old(cameraRepo.rows)
      ensures |old(WithName(cameraRepo.rows, req.cameraId))| == 0 ==>
                cameraRepo.rows == old(cameraRepo.rows) + [NewCamera(old(cameraRepo.nextId), req.cameraId)]
      ensures |WithName(cameraRepo.rows, req.cameraId)| == 1
      ensures cameraRepo.nextId ==
                old(cameraRepo.nextId) + (if |old(WithName(cameraRepo.rows, req.cameraId))| == 0 then 1 else 0)
      // exactly one incident appended, earlier ones untouched
      ensures incidentRepo.nextId == old(incidentRepo.nextId) + 1
      ensures |incidentRepo.rows| == |old(incidentRepo.rows)| + 1
      ensures incidentRepo.rows[..|old(incidentRepo.rows)|] == old(incidentRepo.rows)
      ensures var inc := incidentRepo.rows[|incidentRepo.rows| - 1];
        && inc.id == old(incidentRepo.nextId)
        && inc.status == DETECTED
        && inc.camera == Some(WithName(cameraRepo.rows, req.cameraId)[0])
        && inc.victimCount == req.victimCount
        && inc.snapshotUrl == req.snapshotUrl
        && inc.doctorReportSummary == req.doctorReportSummary
        && inc.severity == ParseSeverity(req.severity)
        && inc.timestamp == (if req.timestamp.Some? && codec.parseInstant(req.timestamp.value).Some?
                             then codec.parseInstant(req.timestamp.value).value else now)
        && inc.locationLat == Some(if req.location.Some? then req.location.value.lat else 0.0)
        && inc.locationLng == Some(if req.location.Some? then req.location.value.lng else 0.0)
        && inc.likelyInjuriesJson == InjuriesJson(req.likelyInjuries, codec)
        // alerts only for MAJOR and CRITICAL, exactly once
        && alertService.attempts == old(alertService.attempts) +
             (if IsSerious(inc.severity)
              then AlertAttempts(inc, codec, alertService.whatsappToPolice, alertService.whatsappToHospital,
                                 policeDelivered, hospitalDelivered)
              else [])
        && resp == ToResponse(inc, codec)
        // the alert client is initialised by the first serious incident and never reset
        && (IsSerious(inc.severity) ==> alertService.initialized && alertService.clientInits == 1)
        && (!IsSerious(inc.severity) ==>
              alertService.initialized == old(alertService.initialized)
              && alertService.clientInits == old(alertService.clientInits))
      ensures old(alertService.initialized) ==>
                alertService.initialized && alertService.clientInits == old(alertService.clientInits)
    {
      var camera := FindOrCreateCamera(req.cameraId);
      assert camera in cameraRepo.rows by {
        WithNameMembership(cameraRepo.rows, req.cameraId);
      }

      var draft := BuildIncident(req, camera, codec, now);
      var saved := incidentRepo.Save(draft);

      // alert only for serious incidents
      if saved.severity == MAJOR || saved.severity == CRITICAL {
        alertService.SendAlertMessages(saved, policeDelivered, hospitalDelivered);
      }
      resp := ToResponse(saved, codec);
    }

    /** getIncidents: every incident for a null or blank status, the incidents
        with that status otherwise, and an error for an unknown status name. */
    method GetIncidents(status: Option<string>) returns (r: Result<seq<IncidentResponse>, string>)
      requires Valid()
      ensures !IsPresent(status) ==> r == Ok(Responses(incidentRepo.rows, codec))
      ensures IsPresent(status) && ParseStatus(status.value).None? ==> r.Err?
      ensures IsPresent(status) && ParseStatus(status.value).Some? ==>
                r == Ok(Responses(WithStatus(incidentRepo.rows, ParseStatus(status.value).value), codec))
      ensures IsPresent(status) && ParseStatus(status.value).Some? ==>
                r.Ok? && (forall k :: 0 <= k < |r.value| ==> r.value[k].status == status.value)
      ensures r.Ok? ==> forall j, k :: 0 <= j < k < |r.value| ==> r.value[j].id < r.value[k].id
    {
      if status.None? || IsBlank(status.value) {
        r := Ok(Responses(incidentRepo.rows, codec));
      } else {
        var st := ParseStatus(status.value);
        if st.None? {
          r := Err("No enum constant IncidentStatus." + status.value);
        } else {
          var rows := incidentRepo.FindByStatus(st.value);
          WithStatusSpec(incidentRepo.rows, st.value);
          assert forall k :: 0 <= k < |rows| ==> rows[k] in incidentRepo.rows;
          r := Ok(Responses(rows, codec));
        }
      }
    }

    /** getIncident: the response for the incident with that id, or
        "Incident not found". */
    method GetIncident(id: int) returns (r: Result<IncidentResponse, string>)
      requires Valid()
      ensures r.Ok? <==> exists k :: 0 <= k < |incidentRepo.rows| && incidentRepo.rows[k].id == id
      ensures r.Ok? ==> exists k :: 0 <= k < |incidentRepo.rows| && incidentRepo.rows[k].id == id
                                   && r.value == ToResponse(incidentRepo.rows[k], codec)
      ensures r.Err? ==> r.error == "Incident not found"
    {
      var found := incidentRepo.FindById(id);
      if found.None? {
        r := Err("Incident not found");
      } else {
        r := Ok(ToResponse(found.value, codec));
      }
    }
  }
}
