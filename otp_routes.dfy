/** The `/otp` router: sending a one-time password to a mobile number and verifying it.
    Per mobile number the rows form a small state machine: a send closes every open row of
    the number and opens a new one; a verify closes the most recent open, unexpired row
    carrying the code. */
module OtpRoutes {
  import opened Wrappers
  import opened Text
  import opened Tables
  import opened OtpService

  datatype Outcome =
    | MobileRequired    // 400 "Mobile required"
    | InvalidMobile     // 400 "Invalid mobile number"
    | OtpSent           // 200 "OTP sent successfully"
    | FieldsRequired    // 400 "mobile and otp required"
    | InvalidOrExpired  // 400 "Invalid or expired OTP"
    | OtpVerified       // 200 "OTP verified successfully"

  /** `/^[6-9]\d{9}$/`: ten ASCII digits, the first of them 6 to 9. */
  predicate ValidMobile(m: string) {
    |m| == 10 && '6' <= m[0] <= '9' && AllDigits(m)
  }

  /** A valid mobile has no white space to trim: the number a send stores, and the number a
      verify looks up, is exactly the validated one, and a valid number sent with white
      space around it is the same number. */
  lemma ValidMobileIsTrimmed(m: string)
    requires ValidMobile(m)
    ensures Trim(m) == m
  {
    assert !IsSpace(m[0]) && !IsSpace(m[|m| - 1]);
    TrimTrimmed(m);
  }

  /** A row the verify query accepts: `mobile = $1 AND otp_code = $2 AND expires_at > NOW()
      AND verified = false`. */
  predicate Live(row: OtpRow, mobile: string, code: string, now: int) {
    row.mobile == mobile && row.code == code && row.expiresAt > now && !row.verified
  }

  /** Row `i` is what `ORDER BY created_at DESC LIMIT 1` may return among the live rows. */
  predicate IsMostRecentLive(rows: seq<OtpRow>, mobile: string, code: string, now: int, i: nat) {
    && i < |rows| && Live(rows[i], mobile, code, now)
    && forall j :: 0 <= j < |rows| && Live(rows[j], mobile, code, now) ==> rows[j].createdAt <= rows[i].createdAt
  }

  /** `after` is `before` with exactly the row at `i` closed. */
  predicate ClosedAt(before: seq<OtpRow>, after: seq<OtpRow>, i: nat) {
    i < |before| && after == before[i := before[i].(verified := true)]
  }

  /** The table after a send appends `row`: the open rows of its mobile are closed first. */
  function AfterSend(rows: seq<OtpRow>, row: OtpRow): seq<OtpRow> {
    CloseOpen(rows, row.mobile) + [row]
  }

  /** The verify query: a live row with the latest `created_at`, if any (rows with equal
      `created_at` may be returned in either order). */
  method MostRecentLive(rows: seq<OtpRow>, mobile: string, code: string, now: int) returns (r: Option<nat>)
    ensures r.None? <==> forall j :: 0 <= j < |rows| ==> !Live(rows[j], mobile, code, now)
    ensures r.Some? ==> IsMostRecentLive(rows, mobile, code, now, r.value)
  {
    r := None;
    var i := 0;
    while i < |rows|
      invariant 0 <= i <= |rows|
      invariant r.None? ==> forall j :: 0 <= j < i ==> !Live(rows[j], mobile, code, now)
      invariant r.Some? ==> r.value < i && Live(rows[r.value], mobile, code, now)
      invariant r.Some? ==> forall j :: 0 <= j < i && Live(rows[j], mobile, code, now) ==>
                              rows[j].createdAt <= rows[r.value].createdAt
    {
      if Live(rows[i], mobile, code, now) && (r.None? || rows[i].createdAt >= rows[r.value].createdAt) {
        r := Some(i);
      }
      i := i + 1;
    }
  }

  /** `POST /otp/send`. `draw` stands for the generator's random draw. */
  method Send(db: Store, mobile: Option<string>, draw: int, now: int) returns (status: int, outcome: Outcome)
    requires db.Valid()
    requires OtpLow <= draw < OtpHigh
    modifies db`otps, db`nextOtpId
    ensures db.Valid()
    ensures !Present(mobile) ==> status == 400 && outcome == MobileRequired && db.otps == old(db.otps) && db.nextOtpId == old(db.nextOtpId)
    ensures Present(mobile) && !ValidMobile(Trim(mobile.value)) ==>
              status == 400 && outcome == InvalidMobile && db.otps == old(db.otps) && db.nextOtpId == old(db.nextOtpId)
    ensures Present(mobile) && ValidMobile(Trim(mobile.value)) ==>
              && status == 200 && outcome == OtpSent
              && db.otps == AfterSend(old(db.otps),
                   OtpRow(old(db.nextOtpId), Trim(mobile.value), GenerateOtp(draw), OtpExpiry(now), false, now))
  {
    if !Present(mobile) {
      return 400, MobileRequired;
    }
    var m := Trim(mobile.value);
    if !ValidMobile(m) {
      return 400, InvalidMobile;
    }
    var code := GenerateOtp(draw);
    db.CloseOpenOtps(m);
    var row := db.InsertOtp(m, code, OtpExpiry(now), now);
    return 200, OtpSent;
  }

  /** `POST /otp/verify`: close the most recent live row for the trimmed mobile and code. */
  method Verify(db: Store, mobile: Option<string>, otp: Option<string>, now: int) returns (status: int, outcome: Outcome)
    requires db.Valid()
    modifies db`otps
    ensures db.Valid()
    ensures !Present(mobile) || !Present(otp) ==>
              status == 400 && outcome == FieldsRequired && db.otps == old(db.otps)
    ensures Present(mobile) && Present(otp) ==>
              var m, o := Trim(mobile.value), Trim(otp.value);
              if forall j :: 0 <= j < |old(db.otps)| ==> !Live(old(db.otps)[j], m, o, now) then
                status == 400 && outcome == InvalidOrExpired && db.otps == old(db.otps)
              else
                && status == 200 && outcome == OtpVerified
                && exists i :: IsMostRecentLive(old(db.otps), m, o, now, i) && ClosedAt(old(db.otps), db.otps, i)
  {
    if !Present(mobile) || !Present(otp) {
      return 400, FieldsRequired;
    }
    var m := Trim(mobile.value);
    var o := Trim(otp.value);
    var found := MostRecentLive(db.otps, m, o, now);
    if found.None? {
      return 400, InvalidOrExpired;
    }
    ghost var before := db.otps;
    db.MarkVerified(found.value);
    assert IsMostRecentLive(before, m, o, now, found.value) && ClosedAt(before, db.otps, found.value);
    return 200, OtpVerified;
  }

  /** After a send for mobile `m`, the new row is the only open row of `m`; no row is
      removed, rows of other mobiles are untouched, and earlier rows of `m` change at most
      in their `verified` flag. */
  lemma SendLeavesOneOpenRow(rows: seq<OtpRow>, row: OtpRow)
    ensures var after := AfterSend(rows, row);
      && |after| == |rows| + 1 && after[|rows|] == row
      && (forall j :: 0 <= j < |rows| && after[j].mobile == row.mobile ==> after[j].verified)
      && (forall j :: 0 <= j < |rows| && rows[j].mobile != row.mobile ==> after[j] == rows[j])
      && (forall j :: 0 <= j < |rows| ==> after[j] == rows[j].(verified := after[j].verified))
  {
  }

  /** One request's effect on the OTP table: a send appending `row`, or a verify closing
      the row at `index`. */
  datatype Step = Sent(row: OtpRow) | Verified(index: nat)

  function Apply(rows: seq<OtpRow>, s: Step): seq<OtpRow> {
    match s
    case Sent(row) => AfterSend(rows, row)
    case Verified(i) => if i < |rows| then rows[i := rows[i].(verified := true)] else rows
  }

  /** The table after a sequence of requests. */
  function Run(rows: seq<OtpRow>, steps: seq<Step>): seq<OtpRow>
    decreases |steps|
  {
    if steps == [] then rows else Run(Apply(rows, steps[0]), steps[1..])
  }

  /** No step sends to mobile `m`. */
  predicate NoSendTo(steps: seq<Step>, m: string) {
    forall k :: 0 <= k < |steps| ==> !(steps[k].Sent? && steps[k].row.mobile == m)
  }

  /** Every open row of `m` sits at a position in `positions`. */
  predicate OpenOnlyAt(rows: seq<OtpRow>, m: string, positions: set<nat>) {
    forall j :: 0 <= j < |rows| && rows[j].mobile == m && !rows[j].verified ==> j in positions
  }

  /** `after` keeps every row of `before` in place, except possibly its `verified` flag. */
  predicate KeepsRows(before: seq<OtpRow>, after: seq<OtpRow>) {
    |before| <= |after| && forall j :: 0 <= j < |before| ==> after[j] == before[j].(verified := after[j].verified)
  }

  /** Requests that do not send to `m` open no row of `m`, and no request removes a row or
      changes a row other than closing it. */
  lemma {:induction false} RunKeepsOpenRows(rows: seq<OtpRow>, steps: seq<Step>, m: string, positions: set<nat>)
    requires NoSendTo(steps, m)
    requires OpenOnlyAt(rows, m, positions)
    ensures OpenOnlyAt(Run(rows, steps), m, positions)
    ensures KeepsRows(rows, Run(rows, steps))
    decreases |steps|
  {
    if steps != [] {
      var next := Apply(rows, steps[0]);
      assert OpenOnlyAt(next, m, positions);
      assert KeepsRows(rows, next);
      assert NoSendTo(steps[1..], m) by {
        forall k | 0 <= k < |steps[1..]| ensures !(steps[1..][k].Sent? && steps[1..][k].row.mobile == m) {
          assert steps[1..][k] == steps[k + 1];
        }
      }
      RunKeepsOpenRows(next, steps[1..], m, positions);
    }
  }

  /** A code superseded by a later send, and different from the code that send drew, never
      verifies again: after a send of `row` for its mobile, and any requests that do not send
      to that mobile again, every live row of the mobile is that send's row, so no other
      code matches at any time. (Codes are drawn independently, so the new code may repeat
      an earlier one, which then matches the new row.) */
  lemma SupersededCodeNeverVerifies(rows: seq<OtpRow>, row: OtpRow, steps: seq<Step>, code: string, t: int)
    requires NoSendTo(steps, row.mobile)
    requires code != row.code
    ensures var later := Run(AfterSend(rows, row), steps);
      forall j :: 0 <= j < |later| ==> !Live(later[j], row.mobile, code, t)
  {
    var sent := AfterSend(rows, row);
    assert OpenOnlyAt(sent, row.mobile, {|rows|});
    RunKeepsOpenRows(sent, steps, row.mobile, {|rows|});
  }

  /** A verified code never verifies again: once the verify after a send has closed a live
      row of the mobile, no row of that mobile is live at any time, for any code, until
      the next send to it. */
  lemma SpentCodeNeverVerifies(rows: seq<OtpRow>, row: OtpRow, steps: seq<Step>, i: nat, now: int,
                               rest: seq<Step>, code: string, t: int)
    requires NoSendTo(steps, row.mobile) && NoSendTo(rest, row.mobile)
    requires var before := Run(AfterSend(rows, row), steps);
      i < |before| && Live(before[i], row.mobile, row.code, now)
    ensures var before := Run(AfterSend(rows, row), steps);
      var later := Run(before[i := before[i].(verified := true)], rest);
      forall j :: 0 <= j < |later| ==> !Live(later[j], row.mobile, code, t)
  {
    var sent := AfterSend(rows, row);
    assert OpenOnlyAt(sent, row.mobile, {|rows|});
    RunKeepsOpenRows(sent, steps, row.mobile, {|rows|});
    var before := Run(sent, steps);
    var closed := before[i := before[i].(verified := true)];
    assert OpenOnlyAt(closed, row.mobile, {});
    RunKeepsOpenRows(closed, rest, row.mobile, {});
  }

  /** A row issued by a send at `issued` verifies, while still open, exactly before five
      minutes have passed. */
  lemma OtpLiveWindow(row: OtpRow, issued: int, t: int)
    requires row.expiresAt == OtpExpiry(issued) && !row.verified
    ensures Live(row, row.mobile, row.code, t) <==> t < issued + OtpLifetimeMs
  {
  }
}
