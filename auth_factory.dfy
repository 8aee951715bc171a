/** `src/auth/auth-factory.ts`: the provider switch on `AUTH_PROVIDER`,
    the mock credentials sign-in and its `jwt`/`session` callbacks. */
module AuthFactory {
  import opened Wrappers
  import opened Strings
  import AuthConfig

  datatype Provider = AzureAD | Google | Okta | MockCredentials

  /** `process.env.AUTH_PROVIDER || 'MockCredentials'` and the `switch`:
      anything unrecognised falls to the mock default. */
  function SelectProvider(env: Option<string>): (p: Provider)
    ensures env.None? || env.value == "" ==> p == MockCredentials
    ensures env == Some("AzureAD") <==> p == AzureAD
    ensures env == Some("Google") <==> p == Google
    ensures env == Some("Okta") <==> p == Okta
  {
    var authProvider := if env.Some? && env.value != "" then env.value else "MockCredentials";
    if authProvider == "AzureAD" then AzureAD
    else if authProvider == "Google" then Google
    else if authProvider == "Okta" then Okta
    else MockCredentials
  }

  /** The configuration returned: its provider list (by display name) and
      whether it installs the callbacks. */
  datatype Config = Config(providers: seq<string>, hasCallbacks: bool)

  function GetAuthConfig(env: Option<string>): (c: Config)
    ensures SelectProvider(env) != MockCredentials <==> c == Config([], false)
    ensures SelectProvider(env) == MockCredentials <==> c == Config(["Mock SIUE Login"], true)
  {
    match SelectProvider(env)
    case AzureAD => Config([], false)
    case Google => Config([], false)
    case Okta => Config([], false)
    case MockCredentials => Config(["Mock SIUE Login"], true)
  }

  /** The mock `authorize`. `None` is an email that is not a string. The
      domain test is on the raw address, the admin test on its lower-case
      form, and the address is returned as given. */
  function MockAuthorize(email: Option<string>): (u: Option<AuthConfig.AuthUser>)
    ensures email.None? ==> u.None?
    ensures u.Some? <==> email.Some? && EndsWith(email.value, AuthConfig.SIUE_DOMAIN)
    ensures u.Some? ==>
              u.value.id == email.value && u.value.email == email.value &&
              u.value.name == BeforeFirst(email.value, '@') &&
              (u.value.role == Some(AuthConfig.ADMIN_ROLE) <==> ToLower(email.value) in AuthConfig.ADMIN_EMAILS) &&
              (u.value.role == Some(AuthConfig.STUDENT_ROLE) <==> ToLower(email.value) !in AuthConfig.ADMIN_EMAILS)
  {
    var e := email.GetOr("");
    if EndsWith(e, AuthConfig.SIUE_DOMAIN) then
      var role := if ToLower(e) in AuthConfig.ADMIN_EMAILS then AuthConfig.ADMIN_ROLE else AuthConfig.STUDENT_ROLE;
      Some(AuthConfig.AuthUser(e, e, BeforeFirst(e, '@'), Some(role)))
    else None
  }

  /** The mock `jwt` copies the user's role whenever a user is present,
      even an absent one. */
  function MockJwtRole(tokenRole: Option<string>, user: Option<AuthConfig.AuthUser>): Option<string> {
    if user.Some? then user.value.role else tokenRole
  }

  /** The mock `session` copies the token's role whenever there is a
      session user, even an absent one. */
  function MockSessionRole(hasUser: bool, userRole: Option<string>, tokenRole: Option<string>): Option<string> {
    if hasUser then tokenRole else userRole
  }

  method MockJwt(token: AuthConfig.Token, user: Option<AuthConfig.AuthUser>) returns (result: AuthConfig.Token)
    modifies token
    ensures result == token && token.role == MockJwtRole(old(token.role), user)
  {
    if user.Some? {
      token.role := user.value.role;
    }
    result := token;
  }

  method MockSession(session: AuthConfig.SessionObject, token: AuthConfig.Token) returns (result: AuthConfig.SessionObject)
    modifies session
    ensures result == session && session.userRole == MockSessionRole(session.hasUser, old(session.userRole), token.role)
  {
    if session.hasUser {
      session.userRole := token.role;
    }
    result := session;
  }

  /** On addresses already in normal form (lower case, no surrounding
      whitespace) the mock and the development sign-in agree. */
  lemma MockAgreesOnNormalAddresses(email: string)
    requires forall i :: 0 <= i < |email| ==> !IsUpper(email[i])
    requires email != [] ==> !IsSpace(email[0]) && !IsSpace(email[|email| - 1])
    ensures MockAuthorize(Some(email)) == AuthConfig.Authorize(Some(email))
  {
    AuthConfig.NormalisedIsFixed(email);
    AuthConfig.ToLowerOfLower(email);
  }

  /** An upper-case domain: the mock refuses it, the development sign-in
      lower-cases it first and accepts it. */
  lemma MockIsCaseSensitiveOnDomain(user: string)
    requires forall i :: 0 <= i < |user| ==> 'a' <= user[i] <= 'z'
    ensures MockAuthorize(Some(user + "@SIUE.EDU")).None?
    ensures AuthConfig.Authorize(Some(user + "@SIUE.EDU")).Some?
  {
    var e := user + "@SIUE.EDU";
    assert e[|e| - 9..] == "@SIUE.EDU";
    LowerOfUpperDomain(user);
    AuthConfig.SiueAddressIsNormal(user);
    AuthConfig.ToLowerOfLower(user + AuthConfig.SIUE_DOMAIN);
  }

  lemma LowerOfUpperDomain(user: string)
    requires forall i :: 0 <= i < |user| ==> 'a' <= user[i] <= 'z'
    ensures ToLower(user + "@SIUE.EDU") == user + AuthConfig.SIUE_DOMAIN
  {
    var e := user + "@SIUE.EDU";
    forall i | 0 <= i < |e| ensures ToLower(e)[i] == (user + AuthConfig.SIUE_DOMAIN)[i] {
      if i < |user| {
        assert e[i] == user[i];
      } else {
        assert e[i] == "@SIUE.EDU"[i - |user|];
      }
    }
  }

  /** The mock's admin test ignores the case of the address, but the
      address it returns keeps the case it was given. */
  lemma MockAdminTestIgnoresCase(name: string)
    requires ToLower(name) + AuthConfig.SIUE_DOMAIN in AuthConfig.ADMIN_EMAILS
    ensures MockAuthorize(Some(name + AuthConfig.SIUE_DOMAIN)).Some?
    ensures MockAuthorize(Some(name + AuthConfig.SIUE_DOMAIN)).value.role == Some(AuthConfig.ADMIN_ROLE)
    ensures MockAuthorize(Some(name + AuthConfig.SIUE_DOMAIN)).value.email == name + AuthConfig.SIUE_DOMAIN
  {
    var e := name + AuthConfig.SIUE_DOMAIN;
    assert e[|e| - |AuthConfig.SIUE_DOMAIN|..] == AuthConfig.SIUE_DOMAIN;
    LowerOfDomain(name);
  }

  /** Lower-casing an address in the university domain lower-cases the
      user name and leaves the domain. */
  lemma LowerOfDomain(name: string)
    ensures ToLower(name + AuthConfig.SIUE_DOMAIN) == ToLower(name) + AuthConfig.SIUE_DOMAIN
  {
    var e := name + AuthConfig.SIUE_DOMAIN;
    forall i | 0 <= i < |e| ensures ToLower(e)[i] == (ToLower(name) + AuthConfig.SIUE_DOMAIN)[i] {
      if i < |name| {
        assert e[i] == name[i];
      } else {
        assert e[i] == AuthConfig.SIUE_DOMAIN[i - |name|];
      }
    }
  }

  /** Both callbacks together carry the signed-in role into the session. */
  lemma MockSignInRoleReachesSession(email: Option<string>, tokenRole: Option<string>, userRole: Option<string>)
    requires MockAuthorize(email).Some?
    ensures MockSessionRole(true, userRole, MockJwtRole(tokenRole, MockAuthorize(email))) == MockAuthorize(email).value.role
    ensures MockAuthorize(email).value.role.Some?
  {
  }

  /** A later `jwt` call without a user keeps the role. */
  lemma MockRefreshKeepsRole(tokenRole: Option<string>)
    ensures MockJwtRole(tokenRole, None) == tokenRole
  {
  }
}
