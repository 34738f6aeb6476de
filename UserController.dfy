/**
 * The endpoints of the user controller: each one a chain of guard clauses
 * that maps the request, the caller's identity and the service's answers to
 * one outcome, in a fixed order. The HTTP framework is not modelled; the
 * caller's identity (name, roles, "aud" claims) is an explicit argument.
 */
module Controller {
  import opened Models
  import opened Repository
  import opened Service

  const InvalidClientMessage := "Invalid client"
  const InvalidCredentialsMessage := "Invalid username or password"

  /** The action results the endpoints return. */
  datatype ActionResult =
    | Ok                                  // 200, no body
    | OkToken(token: Token)               // 200 carrying the issued token
    | OkUser(user: UserInfoDto)           // 200 carrying the created user
    | Accepted                            // 202
    | BadRequest                          // 400, no body
    | BadRequestMessage(message: string)  // 400 carrying a message
    | Unauthorized                        // 401
    | Forbid                              // 403
    | NotFound                            // 404
    | Conflict                            // 409

  /**
   * The identity of an authenticated caller: its name claim (may be
   * absent), its role claims, and the values of its "aud" claims in order.
   */
  datatype Caller = Caller(name: NString, roles: set<string>, audiences: seq<string>)

  predicate IsAdministrator(caller: Caller) {
    AdministratorRole in caller.roles
  }

  /**
   * The decision `Authenticate` makes: client check first, then the
   * credentials' presence, then lookup and password validation. Activation
   * flags play no part.
   */
  function AuthenticateOutcome(hash: HashFunction, t: Table, dto: UserInfoDto): (r: ActionResult)
    requires WellFormed(t) && Credentialed(t)
    requires dto.client.Some?
    ensures !IsRegisteredClient(dto.client.value) ==> r == BadRequestMessage(InvalidClientMessage)
    ensures IsRegisteredClient(dto.client.value) && (IsNullOrEmpty(dto.username) || IsNullOrEmpty(dto.password))
            ==> r == BadRequestMessage(InvalidCredentialsMessage)
    ensures r.OkToken? <==>
              && IsRegisteredClient(dto.client.value)
              && !IsNullOrEmpty(dto.username) && !IsNullOrEmpty(dto.password)
              && UsernameTaken(t, dto.username)
              && PasswordMatches(hash, dto.password.value, FindByUsername(t, dto.username).value)
    ensures r.OkToken? ==> r.token.audience == dto.client.value && r.token.subject == dto.username.value
                           && r.token.issuer == Issuer && r.token.role == AdministratorRole
    // an unknown username and a wrong password are answered alike
    ensures IsRegisteredClient(dto.client.value) && !IsNullOrEmpty(dto.username) && !IsNullOrEmpty(dto.password)
            ==> r.OkToken? || r == Unauthorized
  {
    if !IsRegisteredClient(dto.client.value) then
      BadRequestMessage(InvalidClientMessage)
    else if IsNullOrEmpty(dto.username) || IsNullOrEmpty(dto.password) then
      BadRequestMessage(InvalidCredentialsMessage)
    else
      match FindByUsername(t, dto.username)
      case None => Unauthorized
      case Some(existing) =>
        if PasswordMatches(hash, dto.password.value, existing) then
          OkToken(GenerateToken(dto.username.value, dto.client.value))
        else
          Unauthorized
  }

  /**
   * Round trip: an account created from `dto` then authenticates with the
   * same username and password, for every registered client, and the token
   * names that client as its audience.
   */
  lemma CreateThenAuthenticate(hash: HashFunction, t: Table, dto: UserInfoDto, salt: seq<byte>, key: Guid, login: UserInfoDto)
    requires WellFormed(t) && Credentialed(t)
    requires dto.password.Some? && !UsernameTaken(t, dto.username) && key !in t
    requires !IsNullOrEmpty(dto.username) && !IsNullOrEmpty(dto.password)
    requires login.username == dto.username && login.password == dto.password
    requires login.client.Some? && IsRegisteredClient(login.client.value)
    ensures var t' := Insert(t, PasswordRecord(hash, dto, salt), key);
            && Credentialed(t')
            && AuthenticateOutcome(hash, t', login) == OkToken(GenerateToken(dto.username.value, login.client.value))
  {
  }

  /**
   * After a password change on record `rec` to `password` under `salt`, a
   * login as that user succeeds exactly when the offered password hashes
   * like the new one under the new salt; otherwise it is Unauthorized.
   */
  lemma AuthenticateAfterPasswordChange(hash: HashFunction, t: Table, rec: UserInfoEntity, password: string, salt: seq<byte>, login: UserInfoDto)
    requires WellFormed(t) && Credentialed(t) && rec.id in t && t[rec.id] == rec
    requires login.username == rec.username && !IsNullOrEmpty(login.username) && !IsNullOrEmpty(login.password)
    requires login.client.Some? && IsRegisteredClient(login.client.value)
    ensures var t' := t[rec.id := rec.(passwordHash := Some(hash(password, salt)), passwordSalt := Some(salt))];
            && WellFormed(t') && Credentialed(t')
            && (AuthenticateOutcome(hash, t', login).OkToken? <==> hash(login.password.value, salt) == hash(password, salt))
            && (!AuthenticateOutcome(hash, t', login).OkToken? ==> AuthenticateOutcome(hash, t', login) == Unauthorized)
  {
    var changed := rec.(passwordHash := Some(hash(password, salt)), passwordSalt := Some(salt));
    FindAfterReplace(t, changed, login.username);
  }

  /**
   * `Authenticate` never consults the activation flags: switching any flag
   * of any stored record leaves every login's outcome as it was.
   */
  lemma AuthenticateIgnoresActivation(hash: HashFunction, t: Table, rec: UserInfoEntity, clientId: string, active: bool, login: UserInfoDto)
    requires WellFormed(t) && Credentialed(t) && rec.id in t && t[rec.id] == rec
    requires login.client.Some?
    ensures var t' := t[rec.id := SetClientActive(rec, clientId, active)];
            && WellFormed(t') && Credentialed(t')
            && AuthenticateOutcome(hash, t', login) == AuthenticateOutcome(hash, t, login)
  {
    var switched := SetClientActive(rec, clientId, active);
    FindAfterReplace(t, switched, login.username);
  }

  /** The identity of a caller presenting `token`: its claims read back. */
  function Bearer(token: Token): Caller {
    Caller(Some(token.subject), {token.role}, [token.audience])
  }

  /**
   * Every token a login issues carries the Administrator role, so whoever
   * logs in passes the Forbid guard of the activate and deactivate
   * endpoints, and those act on the client the login asked for.
   */
  lemma LoginGrantsAdministrator(hash: HashFunction, t: Table, login: UserInfoDto)
    requires WellFormed(t) && Credentialed(t) && login.client.Some?
    requires AuthenticateOutcome(hash, t, login).OkToken?
    ensures var caller := Bearer(AuthenticateOutcome(hash, t, login).token);
            && IsAdministrator(caller)
            && caller.name == login.username
            && caller.audiences == [login.client.value]
            && IsRegisteredClient(caller.audiences[0])
  {
  }

  /** The controller, over one service. */
  class UserController {
    const service: UserService

    ghost predicate Valid()
      reads service.repository
    {
      service.Valid()
    }

    /** The account table behind the service. */
    ghost function Records(): Table
      reads service.repository
    {
      service.repository.records
    }

    constructor (service: UserService)
      requires service.Valid()
      ensures this.service == service && Valid()
    {
      this.service := service;
    }

    /** The login endpoint. The request's client must be present: a null one is dereferenced. */
    method Authenticate(dto: UserInfoDto) returns (result: ActionResult)
      requires Valid()
      requires dto.client.Some?
      ensures result == AuthenticateOutcome(service.hash, Records(), dto)
    {
      var client := dto.client.value;
      if !(client == "A") && !(client == "B") && !(client == "C") {
        return BadRequestMessage(InvalidClientMessage);
      }
      if IsNullOrEmpty(dto.username) || IsNullOrEmpty(dto.password) {
        return BadRequestMessage(InvalidCredentialsMessage);
      }
      var existing := service.GetUserByUsername(dto.username);
      if existing.None? {
        return Unauthorized;
      }
      var valid := service.ValidateUserByName(dto.username, dto.password.value);
      if !valid {
        return Unauthorized;
      }
      var token := GenerateToken(dto.username.value, client);
      return OkToken(token);
    }

    /**
     * The registration endpoint: Conflict, without any write, when the
     * username is taken; BadRequest when the store wrote nothing; otherwise
     * the created user.
     */
    method CreateUser(dto: UserInfoDto, salt: seq<byte>, generatedId: Guid) returns (result: ActionResult)
      requires Valid()
      requires generatedId != EmptyGuid && generatedId !in Records()
      requires !UsernameTaken(Records(), dto.username) ==> dto.password.Some?
      modifies service.repository
      ensures Valid()
      ensures UsernameTaken(old(Records()), dto.username) ==> result == Conflict && Records() == old(Records())
      ensures !UsernameTaken(old(Records()), dto.username) ==>
                var e := PasswordRecord(service.hash, dto, salt);
                var key := StoredId(e, generatedId);
                if key in old(Records()) then
                  result == BadRequest && Records() == old(Records())
                else
                  result == OkUser(EntityToDto(e.(id := key))) && Records() == Insert(old(Records()), e, key)
    {
      var existing := service.GetUserByUsername(dto.username);
      if existing.Some? {
        return Conflict;
      }
      var created := service.CreateUser(dto, salt, generatedId);
      if created.None? {
        return BadRequest;
      }
      return OkUser(created.value);
    }

    /**
     * The password endpoint. It changes the password of the user the
     * caller's token names, whatever username the body carries; that user
     * must exist (a missing one is dereferenced), and so must the new password.
     */
    method UpdateUserPassword(caller: Caller, dto: UserInfoDto, salt: seq<byte>) returns (result: ActionResult)
      requires Valid()
      requires UsernameTaken(Records(), caller.name)
      requires dto.password.Some?
      modifies service.repository
      ensures Valid()
      ensures result == Accepted
      ensures var rec := FindByUsername(old(Records()), caller.name).value;
              Records() == old(Records())[rec.id := rec.(passwordHash := Some(service.hash(dto.password.value, salt)),
                                                         passwordSalt := Some(salt))]
    {
      var username := caller.name;
      var existing := service.GetUserByUsername(username);
      var existingDto := existing.value.(password := dto.password);
      ghost var rec := FindByUsername(Records(), username).value;
      PasswordChangeOfStoredRecord(service.hash, Records(), rec, dto.password.value, salt);
      var count := service.UpdateUserPassword(existingDto, salt);
      if count != 1 {
        return BadRequest;
      }
      return Accepted;
    }

    /**
     * The activate endpoint: Forbid unless the caller is an administrator,
     * then NotFound for an unknown user; otherwise the flag of the client
     * named by the caller's first "aud" claim is switched on. Reaching that
     * step without an "aud" claim throws in the endpoint, so the model
     * requires one there.
     */
    method Activate(caller: Caller, dto: UserInfoDto) returns (result: ActionResult)
      requires Valid()
      requires IsAdministrator(caller) && UsernameTaken(Records(), dto.username) ==> |caller.audiences| > 0
      modifies service.repository
      ensures Valid()
      ensures !IsAdministrator(caller) ==> result == Forbid && Records() == old(Records())
      ensures IsAdministrator(caller) && !UsernameTaken(old(Records()), dto.username)
              ==> result == NotFound && Records() == old(Records())
      ensures IsAdministrator(caller) && UsernameTaken(old(Records()), dto.username) ==>
                var rec := FindByUsername(old(Records()), dto.username).value;
                result == Ok && Records() == old(Records())[rec.id := SetClientActive(rec, caller.audiences[0], true)]
    {
      if !IsAdministrator(caller) {
        return Forbid;
      }
      var username := dto.username;
      var existing := service.GetUserByUsername(username);
      if existing.None? {
        return NotFound;
      }
      var client := caller.audiences[0];
      ghost var rec := FindByUsername(Records(), username).value;
      ActivationOfStoredRecord(Records(), rec, client, true);
      var count := service.Activate(existing.value, client);
      if count != 1 {
        return BadRequest;
      }
      return Ok;
    }

    /**
     * The deactivate endpoint: the same guards in the same order as
     * `Activate`; the flag is switched off. An "aud" claim is required as
     * in `Activate`.
     */
    method DeActivate(caller: Caller, dto: UserInfoDto) returns (result: ActionResult)
      requires Valid()
      requires IsAdministrator(caller) && UsernameTaken(Records(), dto.username) ==> |caller.audiences| > 0
      modifies service.repository
      ensures Valid()
      ensures !IsAdministrator(caller) ==> result == Forbid && Records() == old(Records())
      ensures IsAdministrator(caller) && !UsernameTaken(old(Records()), dto.username)
              ==> result == NotFound && Records() == old(Records())
      ensures IsAdministrator(caller) && UsernameTaken(old(Records()), dto.username) ==>
                var rec := FindByUsername(old(Records()), dto.username).value;
                result == Ok && Records() == old(Records())[rec.id := SetClientActive(rec, caller.audiences[0], false)]
    {
      if !IsAdministrator(caller) {
        return Forbid;
      }
      var existing := service.GetUserByUsername(dto.username);
      if existing.None? {
        return NotFound;
      }
      var client := caller.audiences[0];
      ghost var rec := FindByUsername(Records(), dto.username).value;
      ActivationOfStoredRecord(Records(), rec, client, false);
      var count := service.DeActivate(existing.value, client);
      if count != 1 {
        return BadRequest;
      }
      return Ok;
    }
  }

  /**
   * A client of the endpoints: register "alice", log in for client "A",
   * fail with a wrong password, activate her for "B" as an administrator
   * whose token names "B", and be turned away for an unregistered client.
   * Only the contracts above are used.
   */
  method AliceWalkThrough(hash: HashFunction, salt: seq<byte>)
    requires hash("wrong", salt) != hash("p@ss", salt)
  {
    var repository := new UserRepository();
    var service := new UserService(repository, hash);
    var controller := new UserController(service);
    var alice := UserInfoDto(EmptyGuid, None, None, None, Some("alice"), Some("p@ss"), false, false, false, None);

    var created := controller.CreateUser(alice, salt, 1);
    assert created.OkUser? && created.user.password.None?;
    assert !Flag(repository.records[1], A) && !Flag(repository.records[1], B) && !Flag(repository.records[1], C);

    var login := controller.Authenticate(alice.(client := Some("A")));
    assert login == OkToken(Token("alice", AdministratorRole, "A", Issuer));

    var wrong := controller.Authenticate(alice.(password := Some("wrong"), client := Some("A")));
    assert wrong == Unauthorized;

    var admin := Caller(Some("root"), {AdministratorRole}, ["B"]);
    var activated := controller.Activate(admin, alice);
    assert activated == Ok;
    assert Flag(repository.records[1], B) && !Flag(repository.records[1], A) && !Flag(repository.records[1], C);

    var unregistered := controller.Authenticate(alice.(client := Some("Z")));
    assert unregistered == BadRequestMessage(InvalidClientMessage);

    var again := controller.CreateUser(alice, salt, 2);
    assert again == Conflict;
  }
}
