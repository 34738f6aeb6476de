/**
 * The credential and activation logic of the user service: the byte-wise
 * hash comparison, password validation under the stored salt, the
 * per-client activation switch, and the create / change-password /
 * activate / deactivate sequences that build a record and hand it to the
 * repository.
 *
 * The keyed hash (HMAC-SHA256 in the service) is the `hash` argument: any
 * deterministic function of password and salt. The random salt is an input
 * of the operations that need a fresh one.
 */
module Service {
  import opened Models
  import opened Repository

  type HashFunction = (string, seq<byte>) -> seq<byte>

  const Issuer := "Membership"
  const AdministratorRole := "Administrator"

  /**
   * `CheckByteEquals`: false at once when the lengths differ, otherwise a
   * scan that stops at the first differing byte.
   */
  method CheckByteEquals(expected: seq<byte>, actual: seq<byte>) returns (equal: bool)
    ensures |expected| != |actual| ==> !equal
    ensures equal <==> expected == actual
  {
    if |expected| != |actual| {
      return false;
    }
    var i := 0;
    while i < |expected|
      invariant 0 <= i <= |expected|
      invariant forall k :: 0 <= k < i ==> expected[k] == actual[k]
    {
      if expected[i] != actual[i] {
        return false;
      }
      i := i + 1;
    }
    return true;
  }

  /** The stored hash is the hash of `password` under the stored salt. */
  predicate PasswordMatches(hash: HashFunction, password: string, e: UserInfoEntity)
    requires e.passwordHash.Some? && e.passwordSalt.Some?
  {
    hash(password, e.passwordSalt.value) == e.passwordHash.value
  }

  /** Every stored record has a hash and a salt: the service never stores one without them. */
  ghost predicate Credentialed(t: Table) {
    forall id :: id in t ==> t[id].passwordHash.Some? && t[id].passwordSalt.Some?
  }

  /**
   * The record the create and the change-password sequences build: the
   * DTO's fields, with salt and hash set together, the hash computed from
   * the DTO's password under that same salt.
   */
  function PasswordRecord(hash: HashFunction, dto: UserInfoDto, salt: seq<byte>): (e: UserInfoEntity)
    requires dto.password.Some?
    ensures e.passwordSalt == Some(salt) && e.passwordHash.Some?
    ensures PasswordMatches(hash, dto.password.value, e)
    ensures SameExceptCredentials(e, DtoToEntity(dto))
  {
    DtoToEntity(dto).(passwordSalt := Some(salt), passwordHash := Some(hash(dto.password.value, salt)))
  }

  /**
   * `SetClientActive`: the switch on the client string. "A", "B" or "C"
   * sets that one flag; any other string leaves the record as it was.
   */
  function SetClientActive(e: UserInfoEntity, clientId: string, active: bool): (r: UserInfoEntity)
    ensures ParseClient(clientId).None? ==> r == e
    ensures ParseClient(clientId).Some? ==> Flag(r, ParseClient(clientId).value) == active
    ensures forall c :: ParseClient(clientId) != Some(c) ==> Flag(r, c) == Flag(e, c)
    ensures SameExceptActivation(r, e)
  {
    if clientId == "A" then e.(activateStatusA := active)
    else if clientId == "B" then e.(activateStatusB := active)
    else if clientId == "C" then e.(activateStatusC := active)
    else e
  }

  /** Setting a flag twice leaves what the second call set; in particular repeating a call changes nothing. */
  lemma SetClientActiveLastWins(e: UserInfoEntity, clientId: string, first: bool, second: bool)
    ensures SetClientActive(SetClientActive(e, clientId, first), clientId, second)
         == SetClientActive(e, clientId, second)
  {
  }

  /** The three flags are independent: switches for different clients commute. */
  lemma SetClientActiveCommutes(e: UserInfoEntity, c1: string, c2: string, x: bool, y: bool)
    requires c1 != c2
    ensures SetClientActive(SetClientActive(e, c1, x), c2, y)
         == SetClientActive(SetClientActive(e, c2, y), c1, x)
  {
  }

  /** The claims `GenerateToken` signs; signing and serialisation are not modelled. */
  datatype Token = Token(subject: string, role: string, audience: string, issuer: string)

  /**
   * `GenerateToken`: every token names the user as subject and the client as
   * audience, is issued by "Membership", and grants the Administrator role,
   * whoever the user is.
   */
  function GenerateToken(username: string, client: string): (t: Token)
    ensures t.subject == username && t.audience == client
    ensures t.role == AdministratorRole && t.issuer == Issuer
  {
    Token(username, AdministratorRole, client, Issuer)
  }

  /**
   * Activation driven from a DTO read out of the store (what the activate
   * and deactivate endpoints do) leaves the table as if the one flag had
   * been switched on the stored record itself.
   */
  lemma ActivationOfStoredRecord(t: Table, rec: UserInfoEntity, clientId: string, active: bool)
    requires WellFormed(t) && rec.id in t && t[rec.id] == rec
    ensures WithActivation(t, SetClientActive(DtoToEntity(EntityToDto(rec)), clientId, active))
         == t[rec.id := SetClientActive(rec, clientId, active)]
  {
  }

  /**
   * A password change driven from a DTO read out of the store leaves the
   * table as if hash and salt had been replaced on the stored record itself.
   */
  lemma PasswordChangeOfStoredRecord(hash: HashFunction, t: Table, rec: UserInfoEntity, password: string, salt: seq<byte>)
    requires WellFormed(t) && rec.id in t && t[rec.id] == rec
    ensures WithPassword(t, PasswordRecord(hash, EntityToDto(rec).(password := Some(password)), salt))
         == t[rec.id := rec.(passwordHash := Some(hash(password, salt)), passwordSalt := Some(salt))]
  {
  }

  /** The service, over one repository and one keyed hash function. */
  class UserService {
    const repository: UserRepository
    const hash: HashFunction

    ghost predicate Valid()
      reads repository
    {
      repository.Valid() && Credentialed(repository.records)
    }

    constructor (repository: UserRepository, hash: HashFunction)
      requires repository.Valid() && Credentialed(repository.records)
      ensures this.repository == repository && this.hash == hash
      ensures Valid()
    {
      this.repository := repository;
      this.hash := hash;
    }

    /** `ValidateUser`: recompute the hash under the record's salt and compare it with the stored hash. */
    method ValidateUser(username: NString, password: string, entity: UserInfoEntity) returns (valid: bool)
      requires entity.passwordSalt.Some? && entity.passwordHash.Some?
      ensures valid <==> hash(password, entity.passwordSalt.value) == entity.passwordHash.value
    {
      var passwordSalt := entity.passwordSalt.value;
      var expectedPasswordHash := hash(password, passwordSalt);
      var actualPasswordHash := entity.passwordHash.value;
      valid := CheckByteEquals(expectedPasswordHash, actualPasswordHash);
    }

    /** `ValidateUserAsync`: look the user up by name and validate the password against that record. */
    method ValidateUserByName(username: NString, password: string) returns (valid: bool)
      requires Valid() && UsernameTaken(repository.records, username)
      ensures valid <==> PasswordMatches(hash, password, FindByUsername(repository.records, username).value)
    {
      var existing := FindByUsername(repository.records, username);
      valid := ValidateUser(username, password, existing.value);
    }

    /** `GetUserByUsernameAsync`: the stored record with that username as a DTO, or null. */
    function GetUserByUsername(username: NString): (r: Option<UserInfoDto>)
      reads repository
      requires Valid()
      ensures r.None? <==> !UsernameTaken(repository.records, username)
      ensures r.Some? ==> r.value.password.None? && r.value.username == username
      ensures r.Some? ==> DtoToEntity(r.value) == WithoutCredentials(FindByUsername(repository.records, username).value)
    {
      match FindByUsername(repository.records, username)
      case None => None
      case Some(e) => Some(EntityToDto(e))
    }

    /**
     * `CreateUserAsync`: salt, hash, store, then re-read the stored record
     * and return it with the password cleared; null when the store wrote
     * nothing.
     */
    method CreateUser(dto: UserInfoDto, salt: seq<byte>, generatedId: Guid) returns (created: Option<UserInfoDto>)
      requires Valid()
      requires dto.password.Some?
      requires generatedId != EmptyGuid && generatedId !in repository.records
      requires !UsernameTaken(repository.records, dto.username)
      modifies repository
      ensures Valid()
      ensures var e := PasswordRecord(hash, dto, salt);
              var key := StoredId(e, generatedId);
              if key in old(repository.records) then
                created.None? && repository.records == old(repository.records)
              else
                repository.records == Insert(old(repository.records), e, key) &&
                created == Some(EntityToDto(e.(id := key)))
    {
      var passwordSalt := salt;
      var passwordHash := hash(dto.password.value, passwordSalt);
      var entity := DtoToEntity(dto);
      entity := entity.(passwordSalt := Some(passwordSalt), passwordHash := Some(passwordHash));
      var result := repository.CreateUser(entity, generatedId);
      if result != 1 {
        return None;
      }
      var stored := FindByUsername(repository.records, entity.username);
      var newDto := EntityToDto(stored.value);
      newDto := newDto.(password := None);
      created := Some(newDto);
    }

    /** `UpdateUserPasswordAsync`: a fresh salt and the new hash, written to the record with the DTO's Id. */
    method UpdateUserPassword(dto: UserInfoDto, salt: seq<byte>) returns (count: int)
      requires Valid() && dto.password.Some? && dto.id in repository.records
      modifies repository
      ensures Valid() && count == 1
      ensures repository.records == WithPassword(old(repository.records), PasswordRecord(hash, dto, salt))
    {
      var passwordSalt := salt;
      var passwordHash := hash(dto.password.value, passwordSalt);
      var entity := DtoToEntity(dto);
      entity := entity.(passwordSalt := Some(passwordSalt), passwordHash := Some(passwordHash));
      count := repository.UpdatePassword(entity);
    }

    /** `ActivateAsync`: switch the client's flag on in the DTO's record and write the flags back. */
    method Activate(dto: UserInfoDto, clientId: string) returns (count: int)
      requires Valid() && dto.id in repository.records
      modifies repository
      ensures Valid() && count == 1
      ensures repository.records == WithActivation(old(repository.records), SetClientActive(DtoToEntity(dto), clientId, true))
    {
      var entity := DtoToEntity(dto);
      entity := SetClientActive(entity, clientId, true);
      count := repository.Update(entity);
    }

    /** `DeActivateAsync`: switch the client's flag off in the DTO's record and write the flags back. */
    method DeActivate(dto: UserInfoDto, clientId: string) returns (count: int)
      requires Valid() && dto.id in repository.records
      modifies repository
      ensures Valid() && count == 1
      ensures repository.records == WithActivation(old(repository.records), SetClientActive(DtoToEntity(dto), clientId, false))
    {
      var entity := DtoToEntity(dto);
      entity := SetClientActive(entity, clientId, false);
      count := repository.Update(entity);
    }
  }
}
