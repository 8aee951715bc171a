/** `auth.config.ts`: the development credentials sign-in (`authorize`) and
    the `jwt`/`session` callbacks that carry the role from the signed-in
    user into the token and from the token into the session. */
module AuthConfig {
  import opened Wrappers
  import opened Strings

  const SIUE_DOMAIN := "@siue.edu"
  const ADMIN_EMAILS: seq<string> := ["aleith@siue.edu", "tpauli@siue.edu", "bemoyer@siue.edu"]
  const ADMIN_ROLE := "admin"
  const STUDENT_ROLE := "student"

  /** The user object `authorize` returns. */
  datatype AuthUser = AuthUser(id: string, email: string, name: string, role: Option<string>)

  /** `(credentials?.email || "").toString().toLowerCase().trim()`; `None`
      is a missing email. */
  function Normalise(email: Option<string>): (e: string)
    ensures e == Trim(ToLower(email.GetOr("")))
    ensures forall i :: 0 <= i < |e| ==> !IsUpper(e[i])
    ensures e != [] ==> !IsSpace(e[0]) && !IsSpace(e[|e| - 1])
  {
    var lowered := ToLower(email.GetOr(""));
    NoUpperAfterTrim(lowered);
    Trim(lowered)
  }

  lemma NoUpperAfterTrim(s: string)
    requires forall k :: 0 <= k < |s| ==> !IsUpper(s[k])
    ensures forall k :: 0 <= k < |Trim(s)| ==> !IsUpper(Trim(s)[k])
  {
    var r := Trim(s);
    var i :| OccursAt(s, r, i);
    assert forall k :: 0 <= k < |r| ==> r[k] == s[i + k];
  }

  /** Sign-in: only SIUE addresses, `admin` exactly for the three listed
      addresses, everyone else `student`. */
  function Authorize(email: Option<string>): (u: Option<AuthUser>)
    ensures u.Some? <==> EndsWith(Normalise(email), SIUE_DOMAIN)
    ensures u.Some? ==>
              u.value.id == Normalise(email) && u.value.email == Normalise(email) &&
              u.value.name == BeforeFirst(Normalise(email), '@') &&
              (u.value.role == Some(ADMIN_ROLE) <==> Normalise(email) in ADMIN_EMAILS) &&
              (u.value.role == Some(STUDENT_ROLE) <==> Normalise(email) !in ADMIN_EMAILS)
  {
    var e := Normalise(email);
    if !EndsWith(e, SIUE_DOMAIN) then None
    else
      var role := if e in ADMIN_EMAILS then ADMIN_ROLE else STUDENT_ROLE;
      Some(AuthUser(e, e, BeforeFirst(e, '@'), Some(role)))
  }

  /** A string without upper-case letters is its own lower-case form. */
  lemma ToLowerOfLower(s: string)
    requires forall i :: 0 <= i < |s| ==> !IsUpper(s[i])
    ensures ToLower(s) == s
  {
  }

  /** A string with no whitespace at either end is its own trim. */
  lemma TrimOfTrimmed(s: string)
    requires s != [] ==> !IsSpace(s[0]) && !IsSpace(s[|s| - 1])
    ensures Trim(s) == s
  {
    if s != [] {
      assert LeadingSpaces(s) == 0 && s[0..] == s;
      assert TrimmedEnd(s, 0, |s|) == |s|;
    }
  }

  /** Signing in with the normalised address is the same as signing in with
      the raw one: case and surrounding whitespace never matter. */
  lemma AuthorizeNormalisationIdempotent(email: string)
    ensures Normalise(Some(Normalise(Some(email)))) == Normalise(Some(email))
    ensures Authorize(Some(Normalise(Some(email)))) == Authorize(Some(email))
  {
    var e := Normalise(Some(email));
    NormalisedIsFixed(e);
  }

  /** A lower-case string without surrounding whitespace normalises to
      itself. */
  lemma NormalisedIsFixed(e: string)
    requires forall i :: 0 <= i < |e| ==> !IsUpper(e[i])
    requires e != [] ==> !IsSpace(e[0]) && !IsSpace(e[|e| - 1])
    ensures Normalise(Some(e)) == e
  {
    ToLowerOfLower(e);
    TrimOfTrimmed(e);
  }

  /** Lower-case letters, `@` and `.`: the characters of a plain address. */
  predicate PlainChar(c: char) {
    'a' <= c <= 'z' || c == '@' || c == '.'
  }

  /** A plain address normalises to itself. */
  lemma PlainAddressIsNormal(e: string)
    requires forall i :: 0 <= i < |e| ==> PlainChar(e[i])
    ensures Normalise(Some(e)) == e
  {
    NormalisedIsFixed(e);
  }

  /** A configured address, written in lower case as listed, signs in as
      an admin. */
  lemma ConfiguredAdminSignsInAsAdmin(user: string)
    requires forall i :: 0 <= i < |user| ==> 'a' <= user[i] <= 'z'
    requires user + SIUE_DOMAIN in ADMIN_EMAILS
    ensures Authorize(Some(user + SIUE_DOMAIN)).Some?
    ensures Authorize(Some(user + SIUE_DOMAIN)).value.role == Some(ADMIN_ROLE)
    ensures Authorize(Some(user + SIUE_DOMAIN)).value.name == user
  {
    SiueAddressIsNormal(user);
    var e := user + SIUE_DOMAIN;
    assert e[..|user|] == user;
    assert '@' !in user;
    BeforeFirstAt(user, SIUE_DOMAIN);
  }

  /** The text before the first `@` of `user@...` is `user`. */
  lemma {:induction false} BeforeFirstAt(user: string, rest: string)
    requires '@' !in user && rest != [] && rest[0] == '@'
    ensures BeforeFirst(user + rest, '@') == user
  {
    if user != [] {
      assert (user + rest)[1..] == user[1..] + rest;
      BeforeFirstAt(user[1..], rest);
    }
  }

  /** `user@siue.edu` for a lower-case user name is in normal form and in
      the SIUE domain. */
  lemma SiueAddressIsNormal(user: string)
    requires forall i :: 0 <= i < |user| ==> 'a' <= user[i] <= 'z'
    ensures Normalise(Some(user + SIUE_DOMAIN)) == user + SIUE_DOMAIN
    ensures EndsWith(user + SIUE_DOMAIN, SIUE_DOMAIN)
  {
    var e := user + SIUE_DOMAIN;
    assert forall i :: |user| <= i < |e| ==> e[i] == SIUE_DOMAIN[i - |user|];
    PlainAddressIsNormal(e);
    assert e[|e| - |SIUE_DOMAIN|..] == SIUE_DOMAIN;
  }

  /** A plain address `user@domain` whose domain is not `siue.edu` is
      refused. */
  lemma OtherDomainRefused(user: string, domain: string)
    requires forall i :: 0 <= i < |user| ==> PlainChar(user[i])
    requires forall i :: 0 <= i < |domain| ==> PlainChar(domain[i]) && domain[i] != '@'
    requires domain != SIUE_DOMAIN[1..]
    ensures Authorize(Some(user + "@" + domain)) == None
  {
    PlainJoin(user, domain);
    PlainAddressIsNormal(user + "@" + domain);
    OtherDomainSuffix(user, domain);
  }

  /** `user@domain` is plain when both halves are. */
  lemma PlainJoin(user: string, domain: string)
    requires forall i :: 0 <= i < |user| ==> PlainChar(user[i])
    requires forall i :: 0 <= i < |domain| ==> PlainChar(domain[i])
    ensures forall i :: 0 <= i < |user + "@" + domain| ==> PlainChar((user + "@" + domain)[i])
  {
    var e := user + "@" + domain;
    forall i | 0 <= i < |e| ensures PlainChar(e[i]) {
      if i > |user| {
        assert e[i] == domain[i - |user| - 1];
      }
    }
  }

  /** `user@domain` ends in `@siue.edu` only for the domain `siue.edu`. */
  lemma OtherDomainSuffix(user: string, domain: string)
    requires '@' !in domain
    requires domain != SIUE_DOMAIN[1..]
    ensures !EndsWith(user + "@" + domain, SIUE_DOMAIN)
  {
    var e := user + "@" + domain;
    var n := |SIUE_DOMAIN|;
    if |domain| >= n {
      assert e[|e| - n] == domain[|domain| - n];
    } else if |domain| == n - 1 {
      assert e[|e| - n..] == "@" + domain;
    } else if n <= |e| {
      assert e[|e| - 1 - |domain|] == '@';
      assert SIUE_DOMAIN[n - 1 - |domain|] != '@';
    }
  }

  /** JavaScript truthiness of an optional string. */
  predicate Truthy(s: Option<string>) {
    s.Some? && s.value != ""
  }

  /** The JWT as far as the callbacks touch it. */
  class Token {
    var role: Option<string>

    constructor (role: Option<string>)
      ensures this.role == role
    {
      this.role := role;
    }
  }

  /** The session object: whether it has a `user`, and that user's role. */
  class SessionObject {
    const hasUser: bool
    var userRole: Option<string>

    constructor (hasUser: bool, userRole: Option<string>)
      ensures this.hasUser == hasUser && this.userRole == userRole
    {
      this.hasUser := hasUser;
      this.userRole := userRole;
    }
  }

  /** The token's role after `jwt`: the user's role when a user with a
      role is passed, the old one otherwise. */
  function JwtRole(tokenRole: Option<string>, user: Option<AuthUser>): Option<string> {
    if user.Some? && Truthy(user.value.role) then user.value.role else tokenRole
  }

  /** The session user's role after `session`. */
  function SessionRole(hasUser: bool, userRole: Option<string>, tokenRole: Option<string>): Option<string> {
    if hasUser && Truthy(tokenRole) then tokenRole else userRole
  }

  /** The `jwt` callback: assigns the role on the token it is given and
      returns that token. */
  method Jwt(token: Token, user: Option<AuthUser>) returns (result: Token)
    modifies token
    ensures result == token && token.role == JwtRole(old(token.role), user)
  {
    if user.Some? && Truthy(user.value.role) {
      token.role := user.value.role;
    }
    result := token;
  }

  /** The `session` callback: assigns the role on the session's user and
      returns that session. */
  method Session(session: SessionObject, token: Token) returns (result: SessionObject)
    modifies session
    ensures result == session && session.userRole == SessionRole(session.hasUser, old(session.userRole), token.role)
  {
    if session.hasUser && Truthy(token.role) {
      session.userRole := token.role;
    }
    result := session;
  }

  /** After a successful sign-in the role `authorize` chose reaches the
      session, and later `jwt` calls without a user keep it. */
  lemma SignInRoleReachesSession(email: Option<string>, tokenRole: Option<string>, userRole: Option<string>)
    requires Authorize(email).Some?
    ensures var role := JwtRole(tokenRole, Authorize(email));
            role == Authorize(email).value.role &&
            JwtRole(role, None) == role &&
            SessionRole(true, userRole, role) == role &&
            (role == Some(ADMIN_ROLE) <==> Normalise(email) in ADMIN_EMAILS)
  {
  }

  /** A session without a user, or a token without a role, leaves the
      session as it was. */
  lemma SessionUnchangedWithoutRole(hasUser: bool, userRole: Option<string>, tokenRole: Option<string>)
    requires !hasUser || !Truthy(tokenRole)
    ensures SessionRole(hasUser, userRole, tokenRole) == userRole
  {
  }
}
