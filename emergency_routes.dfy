/** The `/emergency` router: the emergency scan and the call and SMS requests. Codes are
    looked up exactly as they arrive in the path, and the tag passes an ordered ladder:
    known, activated, subscription not lapsed. */
module EmergencyRoutes {
  import opened Wrappers
  import opened Text
  import opened Tables

  /** The verdict of the status and subscription checks on a known tag. */
  datatype Gate = Open | NotActivated | Lapsed

  /** Status first, then expiry: a lapsed subscription is `expires_at` set and strictly
      before now, so a tag expiring exactly now still passes. */
  function CheckTag(tag: QrTag, now: int): (g: Gate)
    ensures g == NotActivated <==> tag.status != ActiveStatus
    ensures g == Lapsed <==> tag.status == ActiveStatus && tag.expiresAt.Some? && tag.expiresAt.value < now
    ensures g == Open <==> tag.status == ActiveStatus && (tag.expiresAt.None? || tag.expiresAt.value >= now)
  {
    if tag.status != ActiveStatus then NotActivated
    else if tag.expiresAt.Some? && tag.expiresAt.value < now then Lapsed
    else Open
  }

  /** Every tag `/qr` resolves passes this gate; the one tag it lets through that `/qr`
      refuses is an active tag whose expiry is exactly now. */
  lemma GateWiderThanResolvable(tag: QrTag, now: int)
    ensures Resolvable(tag, now) ==> CheckTag(tag, now) == Open
    ensures CheckTag(tag, now) == Open && !Resolvable(tag, now)
        <==> tag.status == ActiveStatus && tag.expiresAt == Some(now)
  {
  }

  /** The scan's view of a profile: `SELECT vehicle_number, blood_group, model`. The
      owner's mobile is not selected, so a scan never discloses it. */
  datatype ScanProfile = ScanProfile(vehicleNumber: string, bloodGroup: string, model: string)

  /** The columns of `p` that the scan selects. */
  function ScanColumns(p: VehicleProfile): ScanProfile {
    ScanProfile(p.vehicleNumber, p.bloodGroup, p.model)
  }

  datatype Outcome =
    | QrNotFound            // 404 "QR not found"
    | NotActivatedTag       // 403 "QR not activated"
    | ScanExpired(allowCall: bool, allowSms: bool) // 403 status "expired"
    | CallExpired           // 403 status "expired"
    | SmsExpired            // 403 status "subscription_expired"
    | ProfileNotFound       // 404 "Profile not found"
    | EmergencyData(kind: string, profile: ScanProfile, allowCall: bool, allowSms: bool) // 200
    | CallInitiated(status: string) // 200 "Call initiated"
    | MessageRequired       // 400 "Valid message required"
    | SmsSent(status: string)       // 200 "Emergency SMS sent"

  /** The SMS body check: present, and at least 5 UTF-16 code units long. */
  predicate ValidMessage(message: Option<string>) {
    Present(message) && Utf16Length(message.value) >= 5
  }

  /** The check counts UTF-16 units, not characters: five characters always pass and two
      never do, and for text within the Basic Multilingual Plane five characters are
      exactly what is needed. */
  lemma ValidMessageLength(message: string)
    ensures |message| >= 5 ==> ValidMessage(Some(message))
    ensures |message| < 3 ==> !ValidMessage(Some(message))
    ensures (forall i :: 0 <= i < |message| ==> message[i] as int < 0x1_0000) ==>
              (ValidMessage(Some(message)) <==> |message| >= 5)
  {
    if forall i :: 0 <= i < |message| ==> message[i] as int < 0x1_0000 {
      Utf16LengthBmp(message);
    }
  }

  /** `GET /emergency/:code`: the scan. Only a vehicle tag has a profile to show; a
      successful scan logs one 'scan' row for `req.ip`. */
  method Scan(db: Store, code: string, reqIp: string, now: int) returns (status: int, outcome: Outcome)
    requires db.Valid()
    modifies db`logs, db`nextLogId
    ensures db.Valid()
    ensures var found := FindTag(db.qrTags, code);
      if found.None? then
        status == 404 && outcome == QrNotFound && db.logs == old(db.logs) && db.nextLogId == old(db.nextLogId)
      else
        var tag := db.qrTags[found.value];
        var p := FindProfile(db.profiles, tag.id);
        match CheckTag(tag, now)
        case NotActivated =>
          status == 403 && outcome == NotActivatedTag && db.logs == old(db.logs) && db.nextLogId == old(db.nextLogId)
        case Lapsed =>
          status == 403 && outcome == ScanExpired(false, false) && db.logs == old(db.logs) && db.nextLogId == old(db.nextLogId)
        case Open =>
          if tag.kind != VehicleKind || p.None? then
            status == 404 && outcome == ProfileNotFound && db.logs == old(db.logs) && db.nextLogId == old(db.nextLogId)
          else
            && status == 200
            && outcome == EmergencyData(tag.kind, ScanColumns(db.profiles[p.value]), true, true)
            && db.logs == old(db.logs) + [EmergencyLog(old(db.nextLogId), tag.id, "scan", reqIp, now)]
  {
    var found := FindTag(db.qrTags, code);
    if found.None? {
      return 404, QrNotFound;
    }
    var tag := db.qrTags[found.value];
    var gate := CheckTag(tag, now);
    if gate == NotActivated {
      return 403, NotActivatedTag;
    }
    if gate == Lapsed {
      return 403, ScanExpired(false, false);
    }
    var profile: Option<ScanProfile> := None;
    if tag.kind == VehicleKind {
      var p := FindProfile(db.profiles, tag.id);
      if p.Some? {
        profile := Some(ScanColumns(db.profiles[p.value]));
      }
    }
    if profile.None? {
      return 404, ProfileNotFound;
    }
    db.InsertLog(tag.id, "scan", reqIp, now);
    return 200, EmergencyData(tag.kind, profile.value, true, true);
  }

  /** The ladder shared by call and SMS after the joined lookup; `action` names the log row. */
  method ContactOwner(db: Store, code: string, reqIp: string, now: int, action: string)
    returns (found: Option<nat>, gate: Gate)
    requires db.Valid()
    modifies db`logs, db`nextLogId
    ensures db.Valid()
    ensures found == FindJoined(db.qrTags, db.profiles, code)
    ensures found.Some? ==> gate == CheckTag(db.qrTags[found.value], now)
    ensures if found.Some? && gate == Open
            then db.logs == old(db.logs) + [EmergencyLog(old(db.nextLogId), db.qrTags[found.value].id, action, reqIp, now)]
            else db.logs == old(db.logs) && db.nextLogId == old(db.nextLogId)
  {
    found := FindJoined(db.qrTags, db.profiles, code);
    gate := NotActivated;
    if found.Some? {
      var tag := db.qrTags[found.value];
      gate := CheckTag(tag, now);
      if gate == Open {
        db.InsertLog(tag.id, action, reqIp, now);
      }
    }
  }

  /** `POST /emergency/:code/call`: a tag joined with its profile, activated and not lapsed,
      gets one 'call' row. */
  method Call(db: Store, code: string, reqIp: string, now: int) returns (status: int, outcome: Outcome)
    requires db.Valid()
    modifies db`logs, db`nextLogId
    ensures db.Valid()
    ensures var found := FindJoined(db.qrTags, db.profiles, code);
      if found.None? then
        status == 404 && outcome == QrNotFound && db.logs == old(db.logs) && db.nextLogId == old(db.nextLogId)
      else
        var tag := db.qrTags[found.value];
        match CheckTag(tag, now)
        case NotActivated => status == 403 && outcome == NotActivatedTag && db.logs == old(db.logs) && db.nextLogId == old(db.nextLogId)
        case Lapsed => status == 403 && outcome == CallExpired && db.logs == old(db.logs) && db.nextLogId == old(db.nextLogId)
        case Open =>
          && status == 200 && outcome == CallInitiated("processing")
          && db.logs == old(db.logs) + [EmergencyLog(old(db.nextLogId), tag.id, "call", reqIp, now)]
  {
    var found, gate := ContactOwner(db, code, reqIp, now, "call");
    if found.None? {
      return 404, QrNotFound;
    }
    match gate
    case NotActivated => return 403, NotActivatedTag;
    case Lapsed => return 403, CallExpired;
    case Open => return 200, CallInitiated("processing");
  }

  /** `POST /emergency/:code/sms`: the message is checked before the store is read; then
      the same ladder as the call, logging one 'sms' row. */
  method Sms(db: Store, code: string, message: Option<string>, reqIp: string, now: int)
    returns (status: int, outcome: Outcome)
    requires db.Valid()
    modifies db`logs, db`nextLogId
    ensures db.Valid()
    ensures !ValidMessage(message) ==> status == 400 && outcome == MessageRequired && db.logs == old(db.logs) && db.nextLogId == old(db.nextLogId)
    ensures ValidMessage(message) ==>
      var found := FindJoined(db.qrTags, db.profiles, code);
      if found.None? then
        status == 404 && outcome == QrNotFound && db.logs == old(db.logs) && db.nextLogId == old(db.nextLogId)
      else
        var tag := db.qrTags[found.value];
        match CheckTag(tag, now)
        case NotActivated => status == 403 && outcome == NotActivatedTag && db.logs == old(db.logs) && db.nextLogId == old(db.nextLogId)
        case Lapsed => status == 403 && outcome == SmsExpired && db.logs == old(db.logs) && db.nextLogId == old(db.nextLogId)
        case Open =>
          && status == 200 && outcome == SmsSent("processing")
          && db.logs == old(db.logs) + [EmergencyLog(old(db.nextLogId), tag.id, "sms", reqIp, now)]
  {
    if !ValidMessage(message) {
      return 400, MessageRequired;
    }
    var found, gate := ContactOwner(db, code, reqIp, now, "sms");
    if found.None? {
      return 404, QrNotFound;
    }
    match gate
    case NotActivated => return 403, NotActivatedTag;
    case Lapsed => return 403, SmsExpired;
    case Open => return 200, SmsSent("processing");
  }

  /** A code that still has a lower-case ASCII letter is never found among tags stored under
      upper-cased codes: the raw lookup does not normalise. */
  lemma RawCodeMissesNormalisedTags(tags: seq<QrTag>, code: string, k: nat)
    requires k < |code| && IsLowerAscii(code[k])
    requires forall j :: 0 <= j < |tags| ==> forall i :: 0 <= i < |tags[j].code| ==> !IsLowerAscii(tags[j].code[i])
    ensures FindTag(tags, code).None?
  {
    forall j | 0 <= j < |tags|
      ensures tags[j].code != code
    {
      if k < |tags[j].code| {
        assert tags[j].code[k] != code[k];
      }
    }
  }
}
