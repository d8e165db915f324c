/** The parts of Spring Security the backend relies on: the authentication held in the security
    context, and the user details the filter loads. */
module Security {
  import opened Basics

  /** An authentication as `getName()` and `getAuthorities()` see it. */
  datatype Authentication = Authentication(name: Option<string>, authorities: seq<string>)

  /** `UserDetails` as returned by `loadUserByUsername`. */
  datatype UserDetails = UserDetails(username: string, authorities: seq<string>)

  /** The request's security context (`SecurityContextHolder.getContext()`). */
  class SecurityContext {
    var authentication: Option<Authentication>

    constructor (authentication: Option<Authentication>)
      ensures this.authentication == authentication
    {
      this.authentication := authentication;
    }
  }
}
