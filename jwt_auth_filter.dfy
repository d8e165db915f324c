/** `JwtAuthFilter.doFilterInternal`: authenticate the request from a `Bearer` token when nothing is
    authenticated yet, then always continue the filter chain. Token parsing and the user lookup are
    supplied as functions that may fail (throw). */
module JwtAuthFilter {
  import opened Basics
  import opened Security
  import SecurityUtils

  const Prefix := "Bearer "

  /** The claims of a parsed token, as far as the filter reads them. */
  datatype Claims = Claims(subject: Option<string>)

  /** The rest of the filter chain; only how often it is invoked matters here. */
  class FilterChain {
    var invocations: nat

    constructor ()
      ensures invocations == 0
    {
      invocations := 0;
    }

    method DoFilter()
      modifies this
      ensures invocations == old(invocations) + 1
    {
      invocations := invocations + 1;
    }
  }

  /** The token of an `Authorization` header: present exactly when the header starts with "Bearer ",
      and then the header with those 7 characters removed. */
  function BearerToken(header: Option<string>): (t: Option<string>)
    ensures t.Some? <==> header.Some? && |header.value| >= 7 && header.value[..7] == Prefix
    ensures t.Some? ==> header.value == Prefix + t.value
  {
    if header.Some? && |header.value| >= 7 && header.value[..7] == Prefix then
      assert header.value == header.value[..7] + header.value[7..];
      Some(header.value[7..])
    else None
  }

  /** The authentication after the filter, from the one before it. */
  function AuthenticationAfter(
    current: Option<Authentication>,
    header: Option<string>,
    parse: string -> Result<Claims, string>,
    loadUser: string -> Result<UserDetails, string>): (after: Option<Authentication>)
  {
    match BearerToken(header)
    case None => current
    case Some(token) =>
      match parse(token)
      case Err(_) => current
      case Ok(claims) =>
        if claims.subject.None? || current.Some? then current
        else
          match loadUser(claims.subject.value)
          case Err(_) => current
          case Ok(user) => Some(Authentication(Some(user.username), user.authorities))
  }

  /** The filter sets the context's authentication as `AuthenticationAfter` says and continues the
      chain exactly once, on every path. */
  method DoFilterInternal(
    header: Option<string>,
    context: SecurityContext,
    chain: FilterChain,
    parse: string -> Result<Claims, string>,
    loadUser: string -> Result<UserDetails, string>)
    modifies context, chain
    ensures context.authentication == AuthenticationAfter(old(context.authentication), header, parse, loadUser)
    ensures chain.invocations == old(chain.invocations) + 1
  {
    var token := BearerToken(header);
    if token.Some? {
      var parsed := parse(token.value);
      if parsed.Ok? {
        var username := parsed.value.subject;
        if username.Some? && context.authentication.None? {
          var user := loadUser(username.value);
          if user.Ok? {
            context.authentication := Some(Authentication(Some(user.value.username), user.value.authorities));
          }
        }
      }
    }
    chain.DoFilter();
  }

  /** An existing authentication is never overwritten. */
  lemma NeverOverwrites(
    current: Option<Authentication>, header: Option<string>,
    parse: string -> Result<Claims, string>, loadUser: string -> Result<UserDetails, string>)
    requires current.Some?
    ensures AuthenticationAfter(current, header, parse, loadUser) == current
  {
  }

  /** A missing header, or one that does not start with "Bearer ", changes nothing. */
  lemma NoBearerNoChange(
    current: Option<Authentication>, header: Option<string>,
    parse: string -> Result<Claims, string>, loadUser: string -> Result<UserDetails, string>)
    requires header.None? || |header.value| < 7 || header.value[..7] != Prefix
    ensures AuthenticationAfter(current, header, parse, loadUser) == current
  {
  }

  /** The authentication changes only when there was none, the header carried a token that parsed to
      a non-null subject and that subject's user was found; it is then that user's authentication. */
  lemma ChangesOnlyOnSuccess(
    current: Option<Authentication>, header: Option<string>,
    parse: string -> Result<Claims, string>, loadUser: string -> Result<UserDetails, string>)
    requires AuthenticationAfter(current, header, parse, loadUser) != current
    ensures current.None? && header.Some? && |header.value| >= 7 && header.value[..7] == Prefix
    ensures var token := header.value[7..];
            && parse(token).Ok?
            && parse(token).value.subject.Some?
            && loadUser(parse(token).value.subject.value).Ok?
            && var user := loadUser(parse(token).value.subject.value).value;
               AuthenticationAfter(current, header, parse, loadUser)
                 == Some(Authentication(Some(user.username), user.authorities))
  {
  }

  /** Conversely, once the filter has run on an unauthenticated request whose header is "Bearer "
      followed by a token that parses to a known user, the context holds that user's authentication,
      and `currentUsername` then names the user unless it is called "anonymousUser". */
  lemma AuthenticatesValidToken(
    context: SecurityContext, token: string, subject: string, user: UserDetails,
    parse: string -> Result<Claims, string>, loadUser: string -> Result<UserDetails, string>)
    requires parse(token) == Ok(Claims(Some(subject)))
    requires loadUser(subject) == Ok(user)
    requires context.authentication == AuthenticationAfter(None, Some(Prefix + token), parse, loadUser)
    ensures context.authentication == Some(Authentication(Some(user.username), user.authorities))
    ensures user.username != SecurityUtils.AnonymousUser ==> SecurityUtils.CurrentUsername(context) == Some(user.username)
  {
    assert BearerToken(Some(Prefix + token)) == Some(token) by {
      assert (Prefix + token)[..7] == Prefix;
      assert (Prefix + token)[7..] == token;
    }
  }

  /** A token that fails to parse, or whose user cannot be loaded, leaves the request as it was. */
  lemma FailureIsSwallowed(
    current: Option<Authentication>, token: string,
    parse: string -> Result<Claims, string>, loadUser: string -> Result<UserDetails, string>)
    requires parse(token).Err? || (parse(token).value.subject.Some? && loadUser(parse(token).value.subject.value).Err?)
    ensures AuthenticationAfter(current, Some(Prefix + token), parse, loadUser) == current
  {
    assert BearerToken(Some(Prefix + token)) == Some(token) by {
      assert (Prefix + token)[..7] == Prefix;
      assert (Prefix + token)[7..] == token;
    }
  }
}
