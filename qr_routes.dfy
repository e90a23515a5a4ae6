/** The `/qr` router: code normalisation, client address selection, tag creation,
    resolution with a view log, and the throttled contact log. */
module QrRoutes {
  import opened Wrappers
  import opened Text
  import opened Tables

  /** The parts of a request that decide the caller's address: the `x-forwarded-for`
      header, the socket's peer address and Express's `req.ip`. */
  datatype ClientInfo = ClientInfo(forwardedFor: Option<string>, remoteAddress: Option<string>, ip: Option<string>)

  /** What a handler answered, beside its status code. */
  datatype Outcome =
    | MissingFields            // 400 "qr_code and type required"
    | AlreadyExists            // 400 "QR already exists"
    | ServerError              // 500 "Server error"
    | QrCreated(tag: QrTag)    // 201 "QR created"
    | InvalidCode              // 400 "Invalid QR code"
    | InvalidInactiveOrExpired // 403 "QR invalid, inactive, or expired"
    | Viewed(tag: QrTag, profile: Option<VehicleProfile>) // 200, tag and left-joined profile
    | InvalidAction            // 400 "Invalid action_type"
    | TooManyRequests          // 429 "Too many requests"
    | ContactLogged            // 200 "Contact logged"
    | RouteWorking             // 200 "QR route working"

  /** The path of the test route, registered on the router before `/:code`. */
  const TestPath := "test"

  /** Express matches router paths without regard to case, so `GET /qr/TEST`, `/qr/Test`
      and the like reach the test route, never the lookup. Its pattern is ASCII, and a
      non-ASCII character never matches an ASCII one case-insensitively. */
  predicate IsTestPath(segment: string) {
    |segment| == |TestPath| && ToUpper(segment) == ToUpper(TestPath)
  }

  const AllowedContactActions: seq<string> := ["sms", "call"]

  /** `normalize`: the trimmed, upper-cased code, or null for an absent code or one that is
      empty after trimming. */
  function Normalize(code: Option<string>): (r: Option<string>)
    ensures r.None? <==> code.None? || Trim(code.value) == []
    ensures r.Some? ==> r.value != [] && IsTrimmed(r.value)
    ensures r.Some? ==> forall i :: 0 <= i < |r.value| ==> !IsLowerAscii(r.value[i])
    ensures r.Some? ==> |r.value| == |Trim(code.value)|
                        && forall i :: 0 <= i < |r.value| ==> r.value[i] == UpperChar(Trim(code.value)[i])
  {
    match code
    case None => None
    case Some(s) =>
      var t := ToUpper(Trim(s));
      ToUpperKeepsTrimmed(Trim(s));
      ToUpperIdempotent(Trim(s));
      if t == [] then None else Some(t)
  }

  /** Normalising an already normalised code changes nothing. */
  lemma NormalizeIdempotent(code: Option<string>)
    ensures Normalize(code).Some? ==> Normalize(Normalize(code)) == Normalize(code)
  {
    if Normalize(code).Some? {
      var t := Trim(code.value);
      ToUpperKeepsTrimmed(t);
      TrimTrimmed(ToUpper(t));
      ToUpperIdempotent(t);
    }
  }

  /** The example code "abc123" is stored as "ABC123", the code a client later looks up.
      The strings come in through the precondition rather than as literals in the
      postcondition, so that the verifier does not unfold `Trim` and `ToUpper` on them. */
  lemma NormalizeExample(code: string, stored: string)
    requires code == "abc123" && stored == "ABC123"
    ensures Normalize(Some(code)) == Some(stored)
  {
    TrimTrimmed(code);
    var r := Normalize(Some(code));
    assert r.Some? && |r.value| == |stored|;
    assert forall i :: 0 <= i < |stored| ==> r.value[i] == UpperChar(code[i]) == stored[i];
    assert r.value == stored;
  }

  /** `header.split(",")[0]`: the text before the first comma, or all of it. */
  function FirstListEntry(h: string): (r: string)
    ensures r <= h && ',' !in r
    ensures |r| < |h| ==> h[|r|] == ','
  {
    if h == [] || h[0] == ',' then [] else [h[0]] + FirstListEntry(h[1..])
  }

  /** `getClientIP`: the trimmed first entry of `x-forwarded-for` when that is non-empty,
      else the socket's peer address, else `req.ip`, else "unknown" (each taken only when
      non-empty). */
  function ClientIp(c: ClientInfo): (r: string)
    ensures r != []
    ensures c.forwardedFor.Some? && Trim(FirstListEntry(c.forwardedFor.value)) != []
            ==> r == Trim(FirstListEntry(c.forwardedFor.value)) && ',' !in r
    ensures (c.forwardedFor.None? || Trim(FirstListEntry(c.forwardedFor.value)) == [])
            ==> r == (if Present(c.remoteAddress) then c.remoteAddress.value
                      else if Present(c.ip) then c.ip.value
                      else "unknown")
  {
    var fromHeader := if c.forwardedFor.Some? then Trim(FirstListEntry(c.forwardedFor.value)) else [];
    if fromHeader != [] then
      assert forall k :: 0 <= k < |fromHeader| ==> fromHeader[k] in FirstListEntry(c.forwardedFor.value);
      fromHeader
    else if Present(c.remoteAddress) then c.remoteAddress.value
    else if Present(c.ip) then c.ip.value
    else "unknown"
  }

  /** Every segment the test route takes would otherwise have resolved the code "TEST". */
  lemma TestPathShadowsTestCode(param: string)
    requires IsTestPath(param)
    ensures Normalize(Some(param)) == Some(ToUpper(TestPath))
  {
    assert forall i :: 0 <= i < |param| ==> UpperChar(param[i]) == ToUpper(TestPath)[i];
    assert !IsSpace(param[0]) && !IsSpace(param[|param| - 1]);
    TrimTrimmed(param);
  }

  /** In this model (decoded segments, ASCII upper-casing) a segment that reaches the lookup
      and still normalises to "TEST" has white space at one of its ends. */
  lemma TestCodeNeedsSpace(param: string)
    requires !IsTestPath(param) && Normalize(Some(param)) == Some(ToUpper(TestPath))
    ensures param != [] && (IsSpace(param[0]) || IsSpace(param[|param| - 1]))
  {
    if param == [] || (!IsSpace(param[0]) && !IsSpace(param[|param| - 1])) {
      TrimTrimmed(param);
      assert false;
    }
  }

  /** `POST /qr`: create a tag in the inactive state under the normalised code. */
  method CreateQr(db: Store, qrCode: Option<string>, kind: Option<string>) returns (status: int, outcome: Outcome)
    requires db.Valid()
    modifies db`qrTags, db`nextTagId
    ensures db.Valid()
    ensures !Present(qrCode) || !Present(kind) ==>
              status == 400 && outcome == MissingFields && db.qrTags == old(db.qrTags)
              && db.nextTagId == old(db.nextTagId)
    // On the two store rejections below the INSERT does run, and the database may use up a
    // serial value before it refuses the row, so `nextTagId` is left open there.
    ensures Present(qrCode) && Present(kind) && Normalize(qrCode).None? ==>
              status == 500 && outcome == ServerError && db.qrTags == old(db.qrTags)
    ensures Present(qrCode) && Present(kind) && Normalize(qrCode).Some? ==>
              var code := Normalize(qrCode).value;
              if FindTag(old(db.qrTags), code).Some? then
                status == 400 && outcome == AlreadyExists && db.qrTags == old(db.qrTags)
              else
                var tag := QrTag(old(db.nextTagId), code, kind.value, InactiveStatus, None);
                status == 201 && outcome == QrCreated(tag) && db.qrTags == old(db.qrTags) + [tag]
  {
    if !Present(qrCode) || !Present(kind) {
      return 400, MissingFields;
    }
    var code := Normalize(qrCode);
    if code.None? {
      // The INSERT receives NULL for qr_code and the store rejects it.
      return 500, ServerError;
    }
    if FindTag(db.qrTags, code.value).Some? {
      // Unique violation, error code 23505.
      return 400, AlreadyExists;
    }
    var tag := db.InsertTag(code.value, kind.value, InactiveStatus);
    return 201, QrCreated(tag);
  }

  /** `GET /qr/:code`: resolve an active, unexpired tag with its profile and log a view.
      A segment that spells "test" in any case is answered by the test route first, so a
      tag stored as "TEST" can never be viewed this way. */
  method GetQr(db: Store, param: string, client: ClientInfo, now: int) returns (status: int, outcome: Outcome)
    requires db.Valid()
    modifies db`logs, db`nextLogId
    ensures db.Valid()
    ensures IsTestPath(param) ==>
              status == 200 && outcome == RouteWorking && db.logs == old(db.logs) && db.nextLogId == old(db.nextLogId)
    ensures !IsTestPath(param) && Normalize(Some(param)).None? ==>
              status == 400 && outcome == InvalidCode && db.logs == old(db.logs) && db.nextLogId == old(db.nextLogId)
    ensures !IsTestPath(param) && Normalize(Some(param)).Some? ==>
              var found := FindResolvable(db.qrTags, Normalize(Some(param)).value, now);
              if found.None? then
                status == 403 && outcome == InvalidInactiveOrExpired && db.logs == old(db.logs) && db.nextLogId == old(db.nextLogId)
              else
                var tag := db.qrTags[found.value];
                var p := FindProfile(db.profiles, tag.id);
                && status == 200
                && outcome == Viewed(tag, if p.Some? then Some(db.profiles[p.value]) else None)
                && db.logs == old(db.logs) + [EmergencyLog(old(db.nextLogId), tag.id, "view", ClientIp(client), now)]
  {
    if IsTestPath(param) {
      return 200, RouteWorking;
    }
    var code := Normalize(Some(param));
    if code.None? {
      return 400, InvalidCode;
    }
    var found := FindResolvable(db.qrTags, code.value, now);
    if found.None? {
      return 403, InvalidInactiveOrExpired;
    }
    var tag := db.qrTags[found.value];
    var p := FindProfile(db.profiles, tag.id);
    db.InsertLog(tag.id, "view", ClientIp(client), now);
    return 200, Viewed(tag, if p.Some? then Some(db.profiles[p.value]) else None);
  }

  /** `POST /qr/:code/contact`: validate, resolve, apply the per-address throttle, then log. */
  method Contact(db: Store, param: string, actionType: Option<string>, client: ClientInfo, now: int)
    returns (status: int, outcome: Outcome)
    requires db.Valid()
    modifies db`logs, db`nextLogId
    ensures db.Valid()
    ensures Normalize(Some(param)).None? ==>
              status == 400 && outcome == InvalidCode && db.logs == old(db.logs) && db.nextLogId == old(db.nextLogId)
    ensures Normalize(Some(param)).Some? && !(actionType.Some? && actionType.value in AllowedContactActions) ==>
              status == 400 && outcome == InvalidAction && db.logs == old(db.logs) && db.nextLogId == old(db.nextLogId)
    ensures Normalize(Some(param)).Some? && actionType.Some? && actionType.value in AllowedContactActions ==>
              var found := FindResolvable(db.qrTags, Normalize(Some(param)).value, now);
              var ip := ClientIp(client);
              if found.None? then
                status == 403 && outcome == InvalidInactiveOrExpired && db.logs == old(db.logs) && db.nextLogId == old(db.nextLogId)
              else if CountRecent(old(db.logs), ip, now) >= ContactLimit then
                status == 429 && outcome == TooManyRequests && db.logs == old(db.logs) && db.nextLogId == old(db.nextLogId)
              else
                && status == 200 && outcome == ContactLogged
                && db.logs == old(db.logs) + [EmergencyLog(old(db.nextLogId), db.qrTags[found.value].id, actionType.value, ip, now)]
  {
    var code := Normalize(Some(param));
    if code.None? {
      return 400, InvalidCode;
    }
    if !(actionType.Some? && actionType.value in AllowedContactActions) {
      return 400, InvalidAction;
    }
    var found := FindResolvable(db.qrTags, code.value, now);
    if found.None? {
      return 403, InvalidInactiveOrExpired;
    }
    var tagId := db.qrTags[found.value].id;
    var ip := ClientIp(client);
    if CountRecent(db.logs, ip, now) >= ContactLimit {
      return 429, TooManyRequests;
    }
    db.InsertLog(tagId, actionType.value, ip, now);
    return 200, ContactLogged;
  }

  /** Creating a tag makes no code resolvable: the new row is inactive, so every lookup by
      `/qr` answers as before, and the new code itself is refused until it is activated. */
  lemma {:induction false} CreatedTagDoesNotResolve(tags: seq<QrTag>, tag: QrTag, code: string, now: int)
    requires tag.status == InactiveStatus
    ensures FindResolvable(tags + [tag], code, now) == FindResolvable(tags, code, now)
    ensures FindTag(tags, tag.code).None? ==> FindResolvable(tags + [tag], tag.code, now).None?
  {
    if tags != [] {
      assert (tags + [tag])[1..] == tags[1..] + [tag];
      CreatedTagDoesNotResolve(tags[1..], tag, code, now);
    } else {
      assert tags + [tag] == [tag];
    }
  }
}
