/**
 * The two record shapes of the user directory: the stored account
 * (UserInfoEntity) and the request/response shape (UserInfoDto), the
 * hand-written copies between them, and the closed set of client codes
 * whose activation flags an account carries.
 */
module Models {

  datatype Option<T> = None | Some(value: T)

  newtype byte = b: int | 0 <= b < 256

  /** A 128-bit GUID; the all-zero value is `Guid.Empty`. */
  newtype Guid = g: int | 0 <= g < 0x1_0000_0000_0000_0000_0000_0000_0000_0000

  const EmptyGuid: Guid := 0

  /** A C# `string`, which may be null. */
  type NString = Option<string>

  /** `string.IsNullOrEmpty` */
  predicate IsNullOrEmpty(s: NString) {
    s.None? || s.value == ""
  }

  /** The registered client applications; each is a token audience and owns one activation flag. */
  datatype ClientId = A | B | C

  function ClientName(c: ClientId): string {
    match c
    case A => "A"
    case B => "B"
    case C => "C"
  }

  /** Ordinal comparison of a client string against the three registered codes. */
  function ParseClient(s: string): (r: Option<ClientId>)
    ensures r.Some? <==> s in {"A", "B", "C"}
    ensures r.Some? ==> ClientName(r.value) == s
  {
    if s == "A" then Some(A)
    else if s == "B" then Some(B)
    else if s == "C" then Some(C)
    else None
  }

  predicate IsRegisteredClient(s: string) {
    ParseClient(s).Some?
  }

  lemma ClientNameRoundTrip(c: ClientId)
    ensures ParseClient(ClientName(c)) == Some(c)
  {
  }

  /** The stored account record. */
  datatype UserInfoEntity = UserInfoEntity(
    id: Guid,
    email: NString,
    firstName: NString,
    lastName: NString,
    username: NString,
    passwordHash: Option<seq<byte>>,
    passwordSalt: Option<seq<byte>>,
    activateStatusA: bool,
    activateStatusB: bool,
    activateStatusC: bool)

  /**
   * The request and response shape. It carries the plaintext password
   * instead of the hash and salt, and the client code a login asks for.
   */
  datatype UserInfoDto = UserInfoDto(
    id: Guid,
    email: NString,
    firstName: NString,
    lastName: NString,
    username: NString,
    password: NString,
    activateStatusA: bool,
    activateStatusB: bool,
    activateStatusC: bool,
    client: NString)

  /** The activation flag an account holds for client `c`. */
  function Flag(e: UserInfoEntity, c: ClientId): bool {
    match c
    case A => e.activateStatusA
    case B => e.activateStatusB
    case C => e.activateStatusC
  }

  /** The record with its three activation flags blanked out: what activation must not touch. */
  function WithoutActivation(e: UserInfoEntity): UserInfoEntity {
    e.(activateStatusA := false, activateStatusB := false, activateStatusC := false)
  }

  /** The record with hash and salt blanked out: what a password change must not touch. */
  function WithoutCredentials(e: UserInfoEntity): UserInfoEntity {
    e.(passwordHash := None, passwordSalt := None)
  }

  /** Two records agree on every field except, possibly, the activation flags. */
  predicate SameExceptActivation(a: UserInfoEntity, b: UserInfoEntity) {
    WithoutActivation(a) == WithoutActivation(b)
  }

  /** Two records agree on every field except, possibly, hash and salt. */
  predicate SameExceptCredentials(a: UserInfoEntity, b: UserInfoEntity) {
    WithoutCredentials(a) == WithoutCredentials(b)
  }

  /**
   * Entity to DTO, the copy the mapper makes: every field of the same name;
   * `Password` and `Client` have no source and stay null.
   */
  function EntityToDto(e: UserInfoEntity): (d: UserInfoDto)
    ensures d.password.None? && d.client.None?
    ensures DtoToEntity(d) == WithoutCredentials(e)
  {
    UserInfoDto(e.id, e.email, e.firstName, e.lastName, e.username, None,
                e.activateStatusA, e.activateStatusB, e.activateStatusC, None)
  }

  /**
   * DTO to entity, the copy the mapper makes: every field of the same name;
   * `PasswordHash` and `PasswordSalt` have no source and stay null.
   */
  function DtoToEntity(d: UserInfoDto): (e: UserInfoEntity)
    ensures e.passwordHash.None? && e.passwordSalt.None?
  {
    UserInfoEntity(d.id, d.email, d.firstName, d.lastName, d.username, None, None,
                   d.activateStatusA, d.activateStatusB, d.activateStatusC)
  }

  /** A DTO survives the trip through the entity shape except for the fields the entity lacks. */
  lemma DtoRoundTrip(d: UserInfoDto)
    ensures EntityToDto(DtoToEntity(d)) == d.(password := None, client := None)
  {
  }
}
