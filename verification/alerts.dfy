/** AlertService: composes the police and hospital WhatsApp bodies for an
    incident and sends them one after the other; each send swallows its own
    failure. The messaging gateway is an effect whose outcome (delivered or
    not) is an input; every attempt is appended to `attempts`. */
module Alerts {
  import opened Common
  import opened Entities

  const PoliceTitle := " POLICE ALERT Detect the Accident "
  const HospitalTitle := " HOSPITAL ALERT Detect the accident "
  const ReportHeading := "\U{1FA7A} *AI Injury Report For Hospital:*"
  const MapsPrefix := "https://www.google.com/maps?q="

  /** The camera's name, or "UNKNOWN" when no camera is attached. */
  function CameraName(i: Incident): string
  {
    if i.camera.Some? then i.camera.value.name else "UNKNOWN"
  }

  /** A maps link when both coordinates are present. */
  function LocationText(i: Incident, codec: Codec): string
  {
    if i.locationLat.Some? && i.locationLng.Some? then
      MapsPrefix + codec.doubleToString(i.locationLat.value) + "," + codec.doubleToString(i.locationLng.value)
    else
      "Location unavailable"
  }

  function SnapshotText(i: Incident): string
  {
    if IsPresent(i.snapshotUrl) then i.snapshotUrl.value else "N/A"
  }

  /** The lines of the text both bodies share, in order. */
  function BaseLines(i: Incident, codec: Codec): (r: seq<string>)
    ensures |r| == 6
  {
    [ "Severity: " + SeverityName(i.severity),
      "Victims: " + DecimalString(i.victimCount),
      "Camera: " + CameraName(i),
      "Time: " + codec.instantToString(i.timestamp),
      "Location: " + LocationText(i, codec),
      "Snapshot: " + SnapshotText(i) ]
  }

  /** The six-line text shared by both bodies, lines separated by "\n". */
  function BaseText(i: Incident, codec: Codec): string
  {
    Join(BaseLines(i, codec), "\n")
  }

  function PoliceBody(i: Incident, codec: Codec): string
  {
    PoliceTitle + "\n" + BaseText(i, codec)
  }

  function HospitalBody(i: Incident, codec: Codec): string
  {
    var text := HospitalTitle + "\n" + BaseText(i, codec);
    if IsPresent(i.doctorReportSummary) then
      text + "\n\n" + ReportHeading + "\n" + i.doctorReportSummary.value
    else
      text
  }

  /** No field rendered into the base text breaks a line. */
  predicate SingleLineFields(i: Incident, codec: Codec)
  {
    && '\n' !in CameraName(i)
    && '\n' !in codec.instantToString(i.timestamp)
    && '\n' !in LocationText(i, codec)
    && '\n' !in SnapshotText(i)
  }

  lemma BaseLinesSingle(i: Incident, codec: Codec)
    requires SingleLineFields(i, codec)
    ensures forall k :: 0 <= k < 6 ==> '\n' !in BaseLines(i, codec)[k]
  {
    var s := SeverityName(i.severity);
    assert '\n' !in s by { assert s == "MINOR" || s == "MEDIUM" || s == "MAJOR" || s == "CRITICAL"; }
  }

  /** Neither title nor the report heading breaks a line. */
  lemma TitlesSingleLine()
    ensures '\n' !in PoliceTitle && '\n' !in HospitalTitle && '\n' !in ReportHeading
  {
    PoliceTitleSingleLine();
    HospitalTitleSingleLine();
    ReportHeadingSingleLine();
  }

  lemma PoliceTitleSingleLine() ensures '\n' !in PoliceTitle {}
  lemma HospitalTitleSingleLine() ensures '\n' !in HospitalTitle {}
  lemma ReportHeadingSingleLine() ensures '\n' !in ReportHeading {}

  /** The base text has exactly six lines, in the fixed order Severity,
      Victims, Camera, Time, Location, Snapshot. */
  lemma BaseTextLines(i: Incident, codec: Codec)
    requires SingleLineFields(i, codec)
    ensures Split(BaseText(i, codec), '\n') == BaseLines(i, codec)
  {
    BaseLinesSingle(i, codec);
    SplitJoin(BaseLines(i, codec), '\n');
  }

  /** The police message is its title line followed by the six base lines:
      nothing in it comes from the doctor report summary. */
  lemma PoliceBodyLines(i: Incident, codec: Codec)
    requires SingleLineFields(i, codec)
    ensures Split(PoliceBody(i, codec), '\n') == [PoliceTitle] + BaseLines(i, codec)
    ensures forall s: Option<string> :: PoliceBody(i.(doctorReportSummary := s), codec) == PoliceBody(i, codec)
  {
    BaseTextLines(i, codec);
    TitlesSingleLine();
    SplitPiece(PoliceTitle, '\n', BaseText(i, codec));
  }

  /** The hospital message is its title line and the six base lines,
      followed by a blank line, the report heading and the summary's lines
      exactly when the summary is present and not blank. */
  lemma HospitalBodyLines(i: Incident, codec: Codec)
    requires SingleLineFields(i, codec)
    ensures Split(HospitalBody(i, codec), '\n') ==
      [HospitalTitle] + BaseLines(i, codec) +
      (if IsPresent(i.doctorReportSummary)
       then ["", ReportHeading] + Split(i.doctorReportSummary.value, '\n')
       else [])
  {
    var head := [HospitalTitle] + BaseLines(i, codec);
    if IsPresent(i.doctorReportSummary) {
      var tail := Split(i.doctorReportSummary.value, '\n');
      HospitalReportLines(i, codec);
      assert head + ["", ReportHeading] + tail == head + (["", ReportHeading] + tail);
    } else {
      HospitalTextLines(i, codec);
    }
  }

  /** The lines of the title and the base text. */
  lemma HospitalTextLines(i: Incident, codec: Codec)
    requires SingleLineFields(i, codec)
    ensures Split(HospitalTitle + "\n" + BaseText(i, codec), '\n') == [HospitalTitle] + BaseLines(i, codec)
  {
    BaseTextLines(i, codec);
    TitlesSingleLine();
    SplitPiece(HospitalTitle, '\n', BaseText(i, codec));
  }

  /** The lines of a hospital body that carries the report. */
  lemma HospitalReportLines(i: Incident, codec: Codec)
    requires SingleLineFields(i, codec) && IsPresent(i.doctorReportSummary)
    ensures Split(HospitalBody(i, codec), '\n') ==
      [HospitalTitle] + BaseLines(i, codec) + ["", ReportHeading] + Split(i.doctorReportSummary.value, '\n')
  {
    var text := HospitalTitle + "\n" + BaseText(i, codec);
    var summary := i.doctorReportSummary.value;
    HospitalTextLines(i, codec);
    TitlesSingleLine();
    SplitBlankThenPiece(text, '\n', ReportHeading);
    SplitAround(text + "\n\n" + ReportHeading, '\n', summary);
  }

  /** The hospital body extends the text both bodies share, and carries
      something after it exactly when the summary is present. */
  lemma HospitalBodyExtendsIff(i: Incident, codec: Codec)
    ensures HospitalBody(i, codec)[..|HospitalTitle + "\n" + BaseText(i, codec)|] == HospitalTitle + "\n" + BaseText(i, codec)
    ensures |HospitalBody(i, codec)| > |HospitalTitle + "\n" + BaseText(i, codec)| <==> IsPresent(i.doctorReportSummary)
  {
  }

  /** One call of the messaging gateway: recipient, body, and whether the
      gateway accepted it. A failed attempt is logged and swallowed. */
  datatype Attempt = Attempt(to: string, body: string, delivered: bool)

  /** The two attempts one alert makes: police first, then hospital. */
  function AlertAttempts(i: Incident, codec: Codec, police: string, hospital: string,
                         policeDelivered: bool, hospitalDelivered: bool): (r: seq<Attempt>)
    ensures |r| == 2
    ensures r[0].to == police && r[1].to == hospital
    ensures r[0].body == PoliceBody(i, codec) && r[1].body == HospitalBody(i, codec)
    ensures r[0].delivered == policeDelivered && r[1].delivered == hospitalDelivered
  {
    [Attempt(police, PoliceBody(i, codec), policeDelivered),
     Attempt(hospital, HospitalBody(i, codec), hospitalDelivered)]
  }

  /** Failure isolation: whether the police send fails changes nothing about
      the hospital attempt (its recipient, body or outcome), and vice versa. */
  lemma SendsAreIndependent(i: Incident, codec: Codec, police: string, hospital: string, p1: bool, p2: bool, h1: bool, h2: bool)
    ensures AlertAttempts(i, codec, police, hospital, p1, h1)[1] == AlertAttempts(i, codec, police, hospital, p2, h1)[1]
    ensures AlertAttempts(i, codec, police, hospital, p1, h1)[0] == AlertAttempts(i, codec, police, hospital, p1, h2)[0]
  {
  }

  class AlertService {
    const accountSid: string
    const authToken: string
    const whatsappFrom: string
    const whatsappToPolice: string
    const whatsappToHospital: string
    const codec: Codec

    var initialized: bool
    /** How many times the messaging client has been initialised. */
    var clientInits: nat
    /** Every send attempted, in order. */
    var attempts: seq<Attempt>

    ghost predicate Valid()
      reads this
    {
      clientInits == if initialized then 1 else 0
    }

    constructor (accountSid: string, authToken: string, from: string, police: string, hospital: string, codec: Codec)
      ensures Valid()
      ensures this.accountSid == accountSid && this.authToken == authToken && whatsappFrom == from
      ensures whatsappToPolice == police && whatsappToHospital == hospital && this.codec == codec
      ensures !initialized && attempts == []
    {
      this.accountSid := accountSid;
      this.authToken := authToken;
      whatsappFrom := from;
      whatsappToPolice := police;
      whatsappToHospital := hospital;
      this.codec := codec;
      initialized := false;
      clientInits := 0;
      attempts := [];
    }

    /** One-shot client initialisation: the client is initialised at most
        once, and the flag stays set. */
    method InitIfNeeded()
      requires Valid()
      modifies this`initialized, this`clientInits
      ensures Valid() && initialized && clientInits == 1
      ensures old(initialized) ==> clientInits == old(clientInits)
    {
      if !initialized {
        clientInits := clientInits + 1;
        initialized := true;
      }
    }

    /** One gateway call; a failure is caught, so the call always returns. */
    method SendWhatsApp(to: string, body: string, delivered: bool)
      modifies this`attempts
      ensures attempts == old(attempts) + [Attempt(to, body, delivered)]
    {
      attempts := attempts + [Attempt(to, body, delivered)];
    }

    /** Sends the police body and then the hospital body. The outcome of each
        gateway call is an input; neither outcome stops the other send. */
    method SendAlertMessages(i: Incident, policeDelivered: bool, hospitalDelivered: bool)
      requires Valid()
      modifies this`initialized, this`clientInits, this`attempts
      ensures Valid() && initialized && clientInits == 1
      ensures attempts == old(attempts) +
        AlertAttempts(i, codec, whatsappToPolice, whatsappToHospital, policeDelivered, hospitalDelivered)
    {
      InitIfNeeded();
      SendWhatsApp(whatsappToPolice, PoliceBody(i, codec), policeDelivered);
      var hospitalText := HospitalTitle + "\n" + BaseText(i, codec);
      var doctorReport := i.doctorReportSummary;
      if doctorReport.Some? && !IsBlank(doctorReport.value) {
        hospitalText := hospitalText + "\n\n" + ReportHeading + "\n" + doctorReport.value;
      }
      SendWhatsApp(whatsappToHospital, hospitalText, hospitalDelivered);
    }
  }
}
