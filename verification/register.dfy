/**
 * POST /api/auth/register (src/app/api/auth/register/route.ts): self-service
 * sign-up as a customer or a provider. The e-mail syntax check and the
 * password hash are parameters; the existing users are an input.
 */
module Register {
  import opened Common
  import opened Entities
  import opened Ids

  /** The request body after JSON decoding; absent fields are None. */
  datatype RegisterRequest = RegisterRequest(
    name: Option<string>,
    email: Option<string>,
    password: Option<string>,
    role: Option<string>)

  /** The user as the reply shows it: no password hash. */
  datatype PublicUser = PublicUser(id: UserId, name: string, email: string, role: Role)

  datatype Registration = Registration(
    reply: Reply<PublicUser>,
    user: Option<User>,
    profileId: Option<ProfileId>,
    counters: Counters)

  /**
   * The schema: a name of at least 2 characters, an e-mail address, a
   * password of at least 8 characters, and a role that is absent or one of
   * "CUSTOMER" and "PROVIDER". Administrators cannot be registered.
   */
  predicate ValidRegistration(body: RegisterRequest, isEmail: string -> bool)
  {
    && body.name.Some? && |body.name.value| >= 2
    && body.email.Some? && isEmail(body.email.value)
    && body.password.Some? && |body.password.value| >= 8
    && (body.role.None? || body.role == Some("CUSTOMER") || body.role == Some("PROVIDER"))
  }

  predicate EmailTaken(users: seq<User>, email: string)
  {
    exists u :: u in users && u.email == email
  }

  /** No two stored users share an e-mail address. */
  predicate EmailsUnique(users: seq<User>)
  {
    forall i, j :: 0 <= i < j < |users| ==> users[i].email != users[j].email
  }

  /**
   * POST /api/auth/register. A user is created exactly when the body is valid
   * and the e-mail is not taken. A provider takes the next PR identifier for
   * its user row and the one after it for its profile, so the two differ; a
   * customer (also the default) takes the next CU identifier and has no
   * profile. Only the hash of the password is kept, and the reply leaves it
   * out. Rejected requests draw no identifier.
   */
  function RegisterUser(body: RegisterRequest, isEmail: string -> bool, hash: string -> string,
                        users: seq<User>, counters: Counters): (r: Registration)
    ensures r.reply.Success? <==> ValidRegistration(body, isEmail) && !EmailTaken(users, body.email.value)
    ensures r.reply.Success? <==> r.user.Some?
    ensures !ValidRegistration(body, isEmail) ==> r.reply.Failure? && r.reply.status == 400
    ensures ValidRegistration(body, isEmail) && EmailTaken(users, body.email.value) ==>
      r.reply == Failure(409, "Email already exists")
    ensures r.reply.Failure? ==> r.profileId.None? && forall p :: r.counters(p) == counters(p)
    ensures r.reply.Success? ==>
      var u := r.user.value;
      && r.reply.status == 201
      && r.reply.body == PublicUser(u.id, u.name, u.email, u.role)
      && u.name == body.name.value && u.email == body.email.value
      && u.passwordHash == hash(body.password.value)
      && (u.role == Provider <==> body.role == Some("PROVIDER"))
      && u.role != Admin
    ensures r.reply.Success? && r.user.value.role == Provider ==>
      && r.user.value.id.raw == FormatId(PR, counters(PR) + 1)
      && r.profileId == Some(ProfileId(FormatId(PR, counters(PR) + 2)))
      && r.profileId.value.raw != r.user.value.id.raw
      && r.counters(PR) == counters(PR) + 2
      && forall p :: p != PR ==> r.counters(p) == counters(p)
    ensures r.reply.Success? && r.user.value.role == Customer ==>
      && r.user.value.id.raw == FormatId(CU, counters(CU) + 1)
      && r.profileId.None?
      && r.counters(CU) == counters(CU) + 1
      && forall p :: p != CU ==> r.counters(p) == counters(p)
  {
    if !ValidRegistration(body, isEmail) then
      Registration(Failure(400, "Invalid registration"), None, None, counters)
    else if exists u :: u in users && u.email == body.email.value then
      Registration(Failure(409, "Email already exists"), None, None, counters)
    else
      var passwordHash := hash(body.password.value);
      var provider := body.role == Some("PROVIDER");
      var first := GenerateId(counters, if provider then PR else CU);
      var user := User(UserId(first.id), body.name.value, body.email.value, passwordHash,
                       if provider then Provider else Customer);
      if provider then
        var second := GenerateId(first.counters, PR);
        FormatIdInjective(PR, counters(PR) + 1, PR, counters(PR) + 2);
        Registration(Success(201, PublicUser(user.id, user.name, user.email, user.role)),
                     Some(user), Some(ProfileId(second.id)), second.counters)
      else
        Registration(Success(201, PublicUser(user.id, user.name, user.email, user.role)),
                     Some(user), None, first.counters)
  }

  /** Registration keeps e-mail addresses unique across the stored users. */
  lemma RegistrationKeepsEmailsUnique(body: RegisterRequest, isEmail: string -> bool, hash: string -> string,
                                      users: seq<User>, counters: Counters)
    requires EmailsUnique(users)
    requires ValidRegistration(body, isEmail) && !EmailTaken(users, body.email.value)
    ensures EmailsUnique(users + [RegisterUser(body, isEmail, hash, users, counters).user.value])
  {
    var u := RegisterUser(body, isEmail, hash, users, counters).user.value;
    var all := users + [u];
    forall i, j | 0 <= i < j < |all| ensures all[i].email != all[j].email {
      if j == |users| {
        assert all[i] in users;
      } else {
        assert all[i] == users[i] && all[j] == users[j];
      }
    }
  }

  /** Registering the same address twice in a row: the second attempt is refused with 409 and creates nothing. */
  lemma SecondRegistrationConflicts(body: RegisterRequest, isEmail: string -> bool, hash: string -> string,
                                    users: seq<User>, counters: Counters)
    requires ValidRegistration(body, isEmail) && !EmailTaken(users, body.email.value)
    ensures var first := RegisterUser(body, isEmail, hash, users, counters);
      var second := RegisterUser(body, isEmail, hash, users + [first.user.value], first.counters);
      second.reply == Failure(409, "Email already exists") && second.user.None?
  {
    var first := RegisterUser(body, isEmail, hash, users, counters);
    assert first.user.value in users + [first.user.value];
  }
}
