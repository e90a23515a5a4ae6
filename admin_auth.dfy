/** The admin middleware: a shared secret in the `x-admin-key` header, compared with the
    configured `ADMIN_KEY`. */
module AdminAuth {
  import opened Wrappers

  /** Either a response is sent with the status, or the request goes on to `next`. */
  datatype Decision = Reject(status: int) | Next

  /** `adminAuth`: a missing or empty header is 401; a header that differs from the
      configured key (or any header when no key is configured) is 403; otherwise `next`. */
  function Authorize(header: Option<string>, configured: Option<string>): (d: Decision)
    ensures d == Reject(401) <==> !Present(header)
    ensures d == Reject(403) <==> Present(header) && configured != Some(header.value)
    ensures d == Next <==> Present(header) && configured == Some(header.value)
    ensures d.Reject? ==> d.status == 401 || d.status == 403
  {
    if !Present(header) then Reject(401)
    else if configured != Some(header.value) then Reject(403)
    else Next
  }

  /** Without a usable configured key nobody passes: an unset key (or an empty one, which no
      present header can equal) rejects every request. */
  lemma UnsetKeyRejectsAll(header: Option<string>, configured: Option<string>)
    requires !Present(configured)
    ensures Authorize(header, configured) != Next
    ensures Present(header) ==> Authorize(header, configured) == Reject(403)
  {
  }
}
