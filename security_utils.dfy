/** `SecurityUtils.currentUsername`: the name of the authenticated caller, if any. */
module SecurityUtils {
  import opened Basics
  import opened Security

  const AnonymousUser := "anonymousUser"

  /** Reads the authentication held by the context. Null without an authentication, with a null
      name, or for the anonymous user; otherwise the authentication's name unchanged. The result is
      therefore never "anonymousUser". */
  function CurrentUsername(context: SecurityContext): (r: Option<string>)
    reads context
    ensures var auth := context.authentication;
            r.Some? <==> auth.Some? && auth.value.name.Some? && auth.value.name.value != AnonymousUser
    ensures var auth := context.authentication;
            r.Some? ==> r == auth.value.name && r.value != AnonymousUser
  {
    var auth := context.authentication;
    if auth.None? || auth.value.name.None? || auth.value.name.value == AnonymousUser then None
    else auth.value.name
  }
}
