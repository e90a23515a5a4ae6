/** The `/masked` router: a masked call request recorded for a later telephony provider. */
module MaskedRoutes {
  import opened Tables

  datatype Outcome =
    | QrNotFound         // 404 "QR not found"
    | NotActiveTag       // 403 "QR not active"
    | ProfileNotFound    // 404 "Profile not found"
    | MaskedCallInitiated(owner: string, callId: nat) // 200, owner mobile and call id

  /** `POST /masked/:code/call`: known code, then active status, then a profile; there is
      no expiry check. A success inserts one `masked_calls` row for `req.ip` with status
      "initiated" and leaves the emergency log alone. */
  method MaskedCall(db: Store, code: string, reqIp: string) returns (status: int, outcome: Outcome)
    requires db.Valid()
    modifies db`maskedCalls, db`nextCallId
    ensures db.Valid()
    ensures var found := FindTag(db.qrTags, code);
      if found.None? then
        status == 404 && outcome == QrNotFound && db.maskedCalls == old(db.maskedCalls) && db.nextCallId == old(db.nextCallId)
      else
        var tag := db.qrTags[found.value];
        var p := FindProfile(db.profiles, tag.id);
        if tag.status != ActiveStatus then
          status == 403 && outcome == NotActiveTag && db.maskedCalls == old(db.maskedCalls) && db.nextCallId == old(db.nextCallId)
        else if p.None? then
          status == 404 && outcome == ProfileNotFound && db.maskedCalls == old(db.maskedCalls) && db.nextCallId == old(db.nextCallId)
        else
          && status == 200
          && outcome == MaskedCallInitiated(db.profiles[p.value].ownerMobile, old(db.nextCallId))
          && db.maskedCalls == old(db.maskedCalls) + [MaskedCallRow(old(db.nextCallId), tag.id, reqIp, "initiated")]
  {
    var found := FindTag(db.qrTags, code);
    if found.None? {
      return 404, QrNotFound;
    }
    var tag := db.qrTags[found.value];
    if tag.status != ActiveStatus {
      return 403, NotActiveTag;
    }
    var p := FindProfile(db.profiles, tag.id);
    if p.None? {
      return 404, ProfileNotFound;
    }
    var call := db.InsertMaskedCall(tag.id, reqIp, "initiated");
    return 200, MaskedCallInitiated(db.profiles[p.value].ownerMobile, call.id);
  }
}
