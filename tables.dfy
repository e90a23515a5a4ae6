/** The five tables the handlers read and write, the `Store` object that holds them
    (the connection pool every router receives), and the SQL queries the handlers run,
    written as functions on the tables. Times are milliseconds since the epoch. */
module Tables {
  import opened Wrappers

  const ActiveStatus := "active"
  const InactiveStatus := "inactive"
  const VehicleKind := "vehicle"

  /** A row of `qr_tags`. `activated_at` is only echoed back to clients and is left out. */
  datatype QrTag = QrTag(id: nat, code: string, kind: string, status: string, expiresAt: Option<int>)

  /** A row of `vehicle_profiles`, linked to a tag by `qr_tag_id`. */
  datatype VehicleProfile = VehicleProfile(
    qrTagId: nat, vehicleNumber: string, ownerMobile: string, bloodGroup: string, model: string)

  /** A row of `emergency_logs`; `action` is one of view, scan, call, sms. */
  datatype EmergencyLog = EmergencyLog(id: nat, qrTagId: nat, action: string, callerIp: string, createdAt: int)

  /** A row of `otp_verifications`. */
  datatype OtpRow = OtpRow(id: nat, mobile: string, code: string, expiresAt: int, verified: bool, createdAt: int)

  /** A row of `masked_calls`. */
  datatype MaskedCallRow = MaskedCallRow(id: nat, qrTagId: nat, callerNumber: string, status: string)

  /** The `qr_code` column is unique. */
  ghost predicate UniqueCodes(tags: seq<QrTag>) {
    forall i, j :: 0 <= i < j < |tags| ==> tags[i].code != tags[j].code
  }

  /** `id` is the primary key of `qr_tags`. */
  ghost predicate UniqueTagIds(tags: seq<QrTag>) {
    forall i, j :: 0 <= i < j < |tags| ==> tags[i].id != tags[j].id
  }

  /** `id` is the primary key of `otp_verifications`. */
  ghost predicate UniqueOtpIds(rows: seq<OtpRow>) {
    forall i, j :: 0 <= i < j < |rows| ==> rows[i].id != rows[j].id
  }

  /** The store: every table as the sequence of its rows in insertion order, and the next
      value of each table's serial `id`. */
  class Store {
    var qrTags: seq<QrTag>
    var profiles: seq<VehicleProfile>
    var logs: seq<EmergencyLog>
    var otps: seq<OtpRow>
    var maskedCalls: seq<MaskedCallRow>
    var nextTagId: nat
    var nextLogId: nat
    var nextOtpId: nat
    var nextCallId: nat

    /** The table constraints, and every serial counter above the ids already issued. */
    ghost predicate Valid()
      reads this
    {
      && UniqueCodes(qrTags)
      && UniqueTagIds(qrTags)
      && UniqueOtpIds(otps)
      && (forall i :: 0 <= i < |qrTags| ==> qrTags[i].id < nextTagId)
      && (forall i :: 0 <= i < |logs| ==> logs[i].id < nextLogId)
      && (forall i :: 0 <= i < |otps| ==> otps[i].id < nextOtpId)
      && (forall i :: 0 <= i < |maskedCalls| ==> maskedCalls[i].id < nextCallId)
    }

    /** An empty database; serial ids start at 1. */
    constructor ()
      ensures Valid()
      ensures qrTags == [] && profiles == [] && logs == [] && otps == [] && maskedCalls == []
      ensures nextTagId == 1 && nextLogId == 1 && nextOtpId == 1 && nextCallId == 1
    {
      qrTags, profiles, logs, otps, maskedCalls := [], [], [], [], [];
      nextTagId, nextLogId, nextOtpId, nextCallId := 1, 1, 1, 1;
    }

    /** `INSERT INTO qr_tags (qr_code, type, status) ... RETURNING ...`; the caller has
        checked that the code is new, so the unique constraint holds. */
    method InsertTag(code: string, kind: string, status: string) returns (tag: QrTag)
      requires Valid()
      requires forall i :: 0 <= i < |qrTags| ==> qrTags[i].code != code
      modifies this`qrTags, this`nextTagId
      ensures Valid()
      ensures tag == QrTag(old(nextTagId), code, kind, status, None)
      ensures qrTags == old(qrTags) + [tag] && nextTagId == old(nextTagId) + 1
    {
      tag := QrTag(nextTagId, code, kind, status, None);
      qrTags := qrTags + [tag];
      nextTagId := nextTagId + 1;
    }

    /** `INSERT INTO emergency_logs (qr_tag_id, action_type, caller_ip)`; `created_at`
        takes the current time. */
    method InsertLog(tagId: nat, action: string, ip: string, now: int)
      requires Valid()
      modifies this`logs, this`nextLogId
      ensures Valid()
      ensures logs == old(logs) + [EmergencyLog(old(nextLogId), tagId, action, ip, now)]
      ensures nextLogId == old(nextLogId) + 1
    {
      logs := logs + [EmergencyLog(nextLogId, tagId, action, ip, now)];
      nextLogId := nextLogId + 1;
    }

    /** `UPDATE otp_verifications SET verified = true WHERE mobile = $1 AND verified = false`. */
    method CloseOpenOtps(mobile: string)
      requires Valid()
      modifies this`otps
      ensures Valid()
      ensures otps == CloseOpen(old(otps), mobile)
    {
      otps := CloseOpen(otps, mobile);
    }

    /** `INSERT INTO otp_verifications (mobile, otp_code, expires_at, verified) VALUES (..., false)`. */
    method InsertOtp(mobile: string, code: string, expiresAt: int, now: int) returns (row: OtpRow)
      requires Valid()
      modifies this`otps, this`nextOtpId
      ensures Valid()
      ensures row == OtpRow(old(nextOtpId), mobile, code, expiresAt, false, now)
      ensures otps == old(otps) + [row] && nextOtpId == old(nextOtpId) + 1
    {
      row := OtpRow(nextOtpId, mobile, code, expiresAt, false, now);
      otps := otps + [row];
      nextOtpId := nextOtpId + 1;
    }

    /** `UPDATE otp_verifications SET verified = true WHERE id = $1`: since `id` is the
        primary key, exactly the row at `i` changes. */
    method MarkVerified(i: nat)
      requires Valid() && i < |otps|
      modifies this`otps
      ensures Valid()
      ensures otps == old(otps)[i := old(otps)[i].(verified := true)]
    {
      otps := SetVerifiedWhereId(otps, otps[i].id);
      assert otps == old(otps)[i := old(otps)[i].(verified := true)];
    }

    /** `INSERT INTO masked_calls (qr_tag_id, caller_number, status) ... RETURNING id`. */
    method InsertMaskedCall(tagId: nat, caller: string, status: string) returns (call: MaskedCallRow)
      requires Valid()
      modifies this`maskedCalls, this`nextCallId
      ensures Valid()
      ensures call == MaskedCallRow(old(nextCallId), tagId, caller, status)
      ensures maskedCalls == old(maskedCalls) + [call] && nextCallId == old(nextCallId) + 1
    {
      call := MaskedCallRow(nextCallId, tagId, caller, status);
      maskedCalls := maskedCalls + [call];
      nextCallId := nextCallId + 1;
    }
  }

  /** `SELECT ... FROM qr_tags WHERE qr_code = $1`: the position of the tag with that code. */
  function FindTag(tags: seq<QrTag>, code: string): (r: Option<nat>)
    ensures r.Some? ==> r.value < |tags| && tags[r.value].code == code
    ensures r.None? <==> forall j :: 0 <= j < |tags| ==> tags[j].code != code
  {
    if tags == [] then None
    else if tags[0].code == code then Some(0)
    else match FindTag(tags[1..], code)
      case None => None
      case Some(k) => Some(k + 1)
  }

  /** Under the unique constraint, the tag found is the only one carrying the code. */
  lemma FindTagUnique(tags: seq<QrTag>, code: string, j: nat)
    requires UniqueCodes(tags)
    requires j < |tags| && tags[j].code == code
    ensures FindTag(tags, code) == Some(j)
  {
  }

  /** A tag that a client may resolve through `/qr`: status active and the expiry, if set,
      strictly later than now (`expires_at IS NULL OR expires_at > NOW()`). */
  predicate Resolvable(tag: QrTag, now: int) {
    tag.status == ActiveStatus && (tag.expiresAt.None? || tag.expiresAt.value > now)
  }

  /** `SELECT ... FROM qr_tags WHERE qr_code = $1 AND status = 'active'
      AND (expires_at IS NULL OR expires_at > NOW())`. */
  function FindResolvable(tags: seq<QrTag>, code: string, now: int): (r: Option<nat>)
    ensures r.Some? ==> r.value < |tags| && tags[r.value].code == code && Resolvable(tags[r.value], now)
    ensures r.None? <==> forall j :: 0 <= j < |tags| ==> !(tags[j].code == code && Resolvable(tags[j], now))
  {
    if tags == [] then None
    else if tags[0].code == code && Resolvable(tags[0], now) then Some(0)
    else match FindResolvable(tags[1..], code, now)
      case None => None
      case Some(k) => Some(k + 1)
  }

  /** The one combined filter agrees with "look the code up, then check the tag": it finds a
      row exactly when the code is known and its tag is resolvable. */
  lemma {:induction false} FindResolvableIsLookupThenCheck(tags: seq<QrTag>, code: string, now: int)
    requires UniqueCodes(tags)
    ensures FindResolvable(tags, code, now).Some?
        <==> FindTag(tags, code).Some? && Resolvable(tags[FindTag(tags, code).value], now)
    ensures FindResolvable(tags, code, now).Some? ==> FindResolvable(tags, code, now) == FindTag(tags, code)
  {
    match FindResolvable(tags, code, now)
    case Some(k) =>
      FindTagUnique(tags, code, k);
    case None =>
  }

  /** `SELECT ... FROM vehicle_profiles WHERE qr_tag_id = $1`, first row. */
  function FindProfile(profiles: seq<VehicleProfile>, tagId: nat): (r: Option<nat>)
    ensures r.Some? ==> r.value < |profiles| && profiles[r.value].qrTagId == tagId
    ensures r.None? <==> forall j :: 0 <= j < |profiles| ==> profiles[j].qrTagId != tagId
  {
    if profiles == [] then None
    else if profiles[0].qrTagId == tagId then Some(0)
    else match FindProfile(profiles[1..], tagId)
      case None => None
      case Some(k) => Some(k + 1)
  }

  /** `FROM qr_tags q JOIN vehicle_profiles v ON q.id = v.qr_tag_id WHERE q.qr_code = $1`:
      the position of a tag with the code that has a profile. */
  function FindJoined(tags: seq<QrTag>, profiles: seq<VehicleProfile>, code: string): (r: Option<nat>)
    ensures r.Some? ==> r.value < |tags| && tags[r.value].code == code
                        && FindProfile(profiles, tags[r.value].id).Some?
    ensures r.None? <==> forall j :: 0 <= j < |tags| && tags[j].code == code ==> FindProfile(profiles, tags[j].id).None?
  {
    if tags == [] then None
    else if tags[0].code == code && FindProfile(profiles, tags[0].id).Some? then Some(0)
    else match FindJoined(tags[1..], profiles, code)
      case None => None
      case Some(k) => Some(k + 1)
  }

  /** Under the unique constraint the inner join returns a row exactly when the code is known
      and its tag has a profile: an unknown code and a tag without a profile look the same. */
  lemma FindJoinedIsLookupThenProfile(tags: seq<QrTag>, profiles: seq<VehicleProfile>, code: string)
    requires UniqueCodes(tags)
    ensures FindJoined(tags, profiles, code).Some?
        <==> FindTag(tags, code).Some? && FindProfile(profiles, tags[FindTag(tags, code).value].id).Some?
    ensures FindJoined(tags, profiles, code).Some? ==> FindJoined(tags, profiles, code) == FindTag(tags, code)
  {
    match FindJoined(tags, profiles, code)
    case Some(k) =>
      FindTagUnique(tags, code, k);
    case None =>
  }

  /** The trailing window of the contact throttle: two minutes. */
  const ContactWindowMs := 2 * 60 * 1000

  /** At this many recent rows the contact throttle rejects. */
  const ContactLimit := 5

  /** A log row of caller `ip` inside the window: `caller_ip = $1 AND created_at > NOW() - INTERVAL '2 minutes'`. */
  predicate Recent(l: EmergencyLog, ip: string, now: int) {
    l.callerIp == ip && l.createdAt > now - ContactWindowMs
  }

  /** `SELECT COUNT(*) FROM emergency_logs WHERE caller_ip = $1 AND created_at > NOW() - INTERVAL '2 minutes'`. */
  function CountRecent(logs: seq<EmergencyLog>, ip: string, now: int): (n: nat)
    ensures n <= |logs|
    ensures n == 0 <== forall j :: 0 <= j < |logs| ==> !Recent(logs[j], ip, now)
  {
    if logs == [] then 0
    else (if Recent(logs[|logs| - 1], ip, now) then 1 else 0) + CountRecent(logs[..|logs| - 1], ip, now)
  }

  /** Appending a row adds one to the count exactly when the row is a recent row of `ip`. */
  lemma CountRecentAppend(logs: seq<EmergencyLog>, l: EmergencyLog, ip: string, now: int)
    ensures CountRecent(logs + [l], ip, now) == CountRecent(logs, ip, now) + (if Recent(l, ip, now) then 1 else 0)
  {
    assert (logs + [l])[..|logs|] == logs;
  }

  /** The count over two stretches of the log is the sum of the counts over each. */
  lemma {:induction false} CountRecentSplit(a: seq<EmergencyLog>, b: seq<EmergencyLog>, ip: string, now: int)
    ensures CountRecent(a + b, ip, now) == CountRecent(a, ip, now) + CountRecent(b, ip, now)
    decreases |b|
  {
    if b == [] {
      assert a + b == a;
    } else {
      var init, last := b[..|b| - 1], b[|b| - 1];
      assert a + b == (a + init) + [last];
      assert b == init + [last];
      CountRecentAppend(a + init, last, ip, now);
      CountRecentAppend(init, last, ip, now);
      CountRecentSplit(a, init, ip, now);
    }
  }

  /** A block of recent rows of `ip` at the end of the log adds its length to the count,
      whatever comes before it. */
  lemma {:induction false} CountRecentCountsSuffix(logs: seq<EmergencyLog>, recent: seq<EmergencyLog>, ip: string, now: int)
    requires forall j :: 0 <= j < |recent| ==> Recent(recent[j], ip, now)
    ensures CountRecent(logs + recent, ip, now) == CountRecent(logs, ip, now) + |recent|
    decreases |recent|
  {
    if recent != [] {
      var init := recent[..|recent| - 1];
      assert logs + recent == (logs + init) + [recent[|recent| - 1]];
      CountRecentAppend(logs + init, recent[|recent| - 1], ip, now);
      CountRecentCountsSuffix(logs, init, ip, now);
    } else {
      assert logs + recent == logs;
    }
  }

  /** The positions of the recent rows of `ip` in the log. */
  ghost function RecentRows(logs: seq<EmergencyLog>, ip: string, now: int): set<int> {
    set j | 0 <= j < |logs| && Recent(logs[j], ip, now)
  }

  /** The count is the number of recent rows of `ip`, wherever they sit in the log and
      whatever rows of other callers or older rows lie between them. */
  lemma {:induction false} CountRecentIsNumberOfRecentRows(logs: seq<EmergencyLog>, ip: string, now: int)
    ensures CountRecent(logs, ip, now) == |RecentRows(logs, ip, now)|
  {
    if logs == [] {
      assert RecentRows(logs, ip, now) == {};
    } else {
      var init := logs[..|logs| - 1];
      CountRecentIsNumberOfRecentRows(init, ip, now);
      assert forall j :: 0 <= j < |init| ==> logs[j] == init[j];
      if Recent(logs[|logs| - 1], ip, now) {
        assert RecentRows(logs, ip, now) == RecentRows(init, ip, now) + {|init|};
      } else {
        assert RecentRows(logs, ip, now) == RecentRows(init, ip, now);
      }
    }
  }

  /** Five recent rows of `ip` anywhere in the log close the throttle, so the next contact
      from `ip` gets 429. */
  lemma ThrottleCloses(logs: seq<EmergencyLog>, ip: string, now: int, rows: set<int>)
    requires forall j :: j in rows ==> 0 <= j < |logs| && Recent(logs[j], ip, now)
    requires |rows| >= ContactLimit
    ensures CountRecent(logs, ip, now) >= ContactLimit
  {
    var all := RecentRows(logs, ip, now);
    CountRecentIsNumberOfRecentRows(logs, ip, now);
    assert rows <= all;
    assert all == (all - rows) + rows;
  }

  /** Once every row of `ip` is at least two minutes old, the count is zero and the throttle
      lets the next contact through. */
  lemma ThrottleReopens(logs: seq<EmergencyLog>, ip: string, last: int, now: int)
    requires forall j :: 0 <= j < |logs| && logs[j].callerIp == ip ==> logs[j].createdAt <= last
    requires now >= last + ContactWindowMs
    ensures CountRecent(logs, ip, now) == 0
  {
  }

  /** The SQL update of the OTP send: every open row of `mobile` becomes verified; no other
      row changes and no row is removed. */
  function CloseOpen(rows: seq<OtpRow>, mobile: string): seq<OtpRow>
  {
    seq(|rows|, i requires 0 <= i < |rows| =>
      if rows[i].mobile == mobile && !rows[i].verified then rows[i].(verified := true) else rows[i])
  }

  /** The SQL update of the OTP verify: every row with the given id becomes verified. */
  function SetVerifiedWhereId(rows: seq<OtpRow>, id: nat): seq<OtpRow>
  {
    seq(|rows|, i requires 0 <= i < |rows| => if rows[i].id == id then rows[i].(verified := true) else rows[i])
  }
}
