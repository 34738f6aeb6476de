# Membership user directory: a Dafny model

This project models the core of the Membership service, a small user
directory. The service stores salted password hashes and checks a
username/password pair against them. It issues bearer tokens for one of three
client applications ("A", "B", "C"). Each account carries one activation flag
per client.

The model covers three layers of the service:

- **Repository** (`UserRepository.dfy`): the account table. The class
  `UserRepository` holds a map from Id to record. Its three writing methods
  are proved against pure functions over the table: `Insert`, `WithPassword`
  and `WithActivation`. Lookups by username and by Id are functions over the
  same map. `WellFormed` is the table invariant: every record sits under its
  own Id, and usernames are unique. The lookup by username relies on the
  second part.
- **Service** (`UserService.dfy`): the byte-wise hash comparison, a loop proved
  equal to sequence equality. Password validation under the stored salt. The
  per-client activation switch. The create, change-password, activate and
  deactivate sequences, which build a record and hand it to the repository.
  The keyed hash is any deterministic function `hash(password, salt)`, fixed
  when the service is built.
- **Controller** (`UserController.dfy`): the five endpoints. Each is a chain of
  guard clauses that produces one `ActionResult`. The caller's identity is an
  explicit `Caller` value: its name, its roles and its "aud" claims.
  `AuthenticateOutcome` states the login decision as a function. The lemmas
  beside it prove four things. An account created with a password
  authenticates with that password. After a password change, a login
  succeeds exactly when the offered password hashes, under the new salt, to
  the same value as the new password. Activation flags never affect a login.
  Every issued token carries the Administrator role, so any user who logs in
  passes the guard of the activate and deactivate endpoints.

`Models.dfy` holds the two record shapes and the hand-written copies between
them. `UserInfoEntity` stores the hash and the salt. `UserInfoDto` carries the
plaintext password.

On these points the model follows the code as written:

- New accounts copy their activation flags from the request
  (`Membership/Services/UserService.cs:126`). They are not forced to false.
- The hash comparison returns at the first differing byte. It is not
  constant-time.
- Registration does not reject an empty username or password.
- A password change for a missing user dereferences null. It does not answer
  NotFound.
- `UserInfoDto` as declared (`Membership/Models/UserInfoDto.cs:10-18`) has no
  `Client` property. `UserController.cs:34` and the controller tests read and
  set one, so the model's DTO has a nullable `client` field.

C# nullable strings are `Option<string>` (`NString`). A path where the code
dereferences null or otherwise throws is a precondition, not an outcome.
These paths are:

- the request's client in `Authenticate`;
- the user looked up in `UpdateUserPassword`;
- the user looked up by `ValidateUserAsync`
  (`Membership/Services/UserService.cs:79-80`), whose record `ValidateUser`
  reads at line 57: `ValidateUserByName` requires the user to exist;
- the caller's first "aud" claim in `Activate` and `DeActivate`
  (`Membership/Controllers/UserController.cs:126` and `:155`), which `First`
  reads and which throws when there is none;
- the record fetched by Id in the two repository updates;
- a null password passed to the hash.

## Model

| member | source | states |
|---|---|---|
| `Models.ParseClient` | Membership/Controllers/UserController.cs:34 | a client string is recognised exactly when it is "A", "B" or "C", and the recognised code prints back as the same string |
| `Models.ClientNameRoundTrip` | Membership/Controllers/UserController.cs:34 | each client code, printed as its string, is recognised again as that same code: the inverse of `ParseClient` |
| `Models.EntityToDto` | Membership/Services/UserService.cs:26 | the entity-to-DTO copy leaves `Password` and `Client` null; copied back, it loses only hash and salt |
| `Models.DtoToEntity` | Membership/Services/UserService.cs:27 | the DTO-to-entity copy leaves hash and salt null |
| `Models.DtoRoundTrip` | Membership/Models/UserInfoDto.cs:10-18 | a DTO copied to an entity and back loses only its password and client |
| `Repository.FindByUsername` | Membership/Repositories/UserRepository.cs:18-22 | null exactly when no record has the username; otherwise it is every record with that username, which is the one stored under its own Id |
| `Repository.FindById` | Membership/Repositories/UserRepository.cs:24-28 | null exactly when no record carries the Id; otherwise it is every record that does |
| `Repository.Insert` | Membership/Repositories/UserRepository.cs:30-34 | adding a record under a free key keeps the table well formed and every old record unchanged; a lookup by its username then finds it |
| `Repository.WithPassword` | Membership/Repositories/UserRepository.cs:36-45 | only hash and salt of the record with the given Id change; its other fields and every other record are kept |
| `Repository.WithActivation` | Membership/Repositories/UserRepository.cs:47-57 | only the three activation flags of the record with the given Id change; everything else is kept |
| `Repository.WithPasswordIdempotent` | Membership/Repositories/UserRepository.cs:36-45 | applying the same password update twice gives the table one application gives |
| `Repository.WithActivationIdempotent` | Membership/Repositories/UserRepository.cs:47-57 | applying the same activation update twice gives the table one application gives |
| `Repository.FindAfterReplace` | Membership/Repositories/UserRepository.cs:18-22 | after a record is overwritten in place with its Id and username kept, a lookup by username finds the new record or what it found before |
| `Repository.UserRepository.CreateUser` | Membership/Repositories/UserRepository.cs:30-34 | stores the record under its Id (the generated one when its Id is empty) and reports 1; a key already in use writes nothing and reports 0 |
| `Repository.UserRepository.UpdatePassword` | Membership/Repositories/UserRepository.cs:36-45 | requires the record to exist; the table becomes `WithPassword` of the old table; reports 1 |
| `Repository.UserRepository.Update` | Membership/Repositories/UserRepository.cs:47-57 | requires the record to exist; the table becomes `WithActivation` of the old table; reports 1 |
| `Service.CheckByteEquals` | Membership/Services/UserService.cs:64-75 | false whenever the lengths differ; true exactly when every index holds equal bytes, which is sequence equality |
| `Service.PasswordRecord` | Membership/Services/UserService.cs:122-128 | create and password change set salt and hash together; the hash is computed under that same salt, so the record validates with the DTO's password; all other fields are the DTO's |
| `Service.SetClientActive` | Membership/Services/UserService.cs:174-190 | "A", "B" or "C" sets that flag to `active` and keeps the other two flags and all other fields; any other client string leaves the record unchanged |
| `Service.SetClientActiveLastWins` | Membership/Services/UserService.cs:174-190 | two switches of the same client leave what the second one set, so repeating a switch is idempotent |
| `Service.SetClientActiveCommutes` | Membership/Services/UserService.cs:174-190 | switches for two different clients commute: the flags are independent |
| `Service.GenerateToken` | Membership/Services/UserService.cs:84-110 | the token's claims: the user as subject, the client as audience, issuer "Membership", and the Administrator role whoever the user is |
| `Service.ActivationOfStoredRecord` | Membership/Services/UserService.cs:158-172 | activating or deactivating from a DTO read out of the store switches exactly that one flag of the stored record |
| `Service.PasswordChangeOfStoredRecord` | Membership/Services/UserService.cs:146-156 | a password change from a DTO read out of the store replaces exactly hash and salt of the stored record |
| `Service.UserService.ValidateUser` | Membership/Services/UserService.cs:55-62 | true exactly when the hash of the password under the stored salt equals the stored hash |
| `Service.UserService.ValidateUserByName` | Membership/Services/UserService.cs:77-82 | validates the password against the record found by username, which must exist |
| `Service.UserService.GetUserByUsername` | Membership/Services/UserService.cs:112-117 | null exactly when the username is unknown; otherwise the stored record's fields without hash, salt or password |
| `Service.UserService.CreateUser` | Membership/Services/UserService.cs:119-144 | null and no change when the store writes nothing; otherwise the table gains the salted, hashed record and the result is that record as a DTO with no password |
| `Service.UserService.UpdateUserPassword` | Membership/Services/UserService.cs:146-156 | writes a fresh salt and the new password's hash under it to the record with the DTO's Id; returns the store's count |
| `Service.UserService.Activate` | Membership/Services/UserService.cs:158-164 | writes the DTO's flags with the client's flag set to true; returns the store's count |
| `Service.UserService.DeActivate` | Membership/Services/UserService.cs:166-172 | writes the DTO's flags with the client's flag set to false; returns the store's count |
| `Controller.AuthenticateOutcome` | Membership/Controllers/UserController.cs:32-57 | an unregistered client is refused first, then a null or empty username or password; Ok only with a known user and a matching password, with a token for that user whose audience is the requested client, whose issuer is "Membership" and whose role is Administrator; an unknown user and a wrong password both give Unauthorized |
| `Controller.CreateThenAuthenticate` | Membership/Services/UserService.cs:122-128 | an account created from a username and password then authenticates with them for every registered client |
| `Controller.AuthenticateAfterPasswordChange` | Membership/Services/UserService.cs:146-156 | after a password change, a login succeeds exactly when the offered password hashes like the new one under the new salt, and is Unauthorized otherwise |
| `Controller.AuthenticateIgnoresActivation` | Membership/Controllers/UserController.cs:32-57 | switching any activation flag leaves every login outcome unchanged |
| `Controller.LoginGrantsAdministrator` | Membership/Services/UserService.cs:93 | a caller presenting a token from a successful login holds the Administrator role that `Activate` and `DeActivate` test, carries the login's username, and has the requested, registered client as its only audience |
| `Controller.UserController.Authenticate` | Membership/Controllers/UserController.cs:32-57 | the endpoint's result is `AuthenticateOutcome` of the current table; it changes nothing |
| `Controller.UserController.CreateUser` | Membership/Controllers/UserController.cs:69-80 | Conflict and no write when the username is taken; BadRequest when the store writes nothing; otherwise Ok with the created user and the record inserted |
| `Controller.UserController.UpdateUserPassword` | Membership/Controllers/UserController.cs:90-98 | changes hash and salt of the user named by the caller's identity, not by the body's username; Accepted |
| `Controller.UserController.Activate` | Membership/Controllers/UserController.cs:111-131 | Forbid without the Administrator role, then NotFound for an unknown user, both without a write; otherwise, with at least one "aud" claim present (required), Ok with the flag of the caller's first "aud" client switched on |
| `Controller.UserController.DeActivate` | Membership/Controllers/UserController.cs:142-160 | the same guards in the same order; otherwise, with at least one "aud" claim present (required), Ok with the flag of the caller's first "aud" client switched off |

## Left out

- HMAC-SHA256 hashing (`Membership/Services/UserService.cs:32-41`) is foreign
  cryptography. The model uses an arbitrary deterministic `hash` function, so
  every property holds for any such hash. A wrong password is rejected only
  when its hash differs, since nothing says the hash is injective.
- Random salt generation (`Membership/Services/UserService.cs:43-52`) draws on
  randomness. The salt is an argument of the operations that need one.
- `GenerateToken` (`Membership/Services/UserService.cs:84-110`): signing,
  serialisation and the `DateTime.Now` expiry are library calls and a clock.
  So is the catch block that returns the exception's message as the token.
  The model keeps only the claims: subject, role "Administrator", the
  requested client as audience, and issuer "Membership".
- The AutoMapper configuration (`Membership/Services/UserService.cs:25-29`) is
  replaced by the explicit copies `EntityToDto` and `DtoToEntity`.
- The database's row count: every write reports 1. Three consequences follow:
  - A second record under an Id already in use is rejected by the database
    with an exception. The model treats that as a save that writes nothing
    and reports 0, which is how `CreateUser` reaches its null/BadRequest
    branch.
  - The BadRequest branches after `UpdateUserPassword`, `Activate` and
    `DeActivate` are unreachable in the model.
  - A record with an empty Id gets a key from the database. The model takes
    that key as the `generatedId` argument.
- Tracked entity objects: the database hands back the same object that the
  updates then overwrite in place. The model keeps records as values in the
  map, so object identity and aliasing are not modelled.
- Username uniqueness is enforced only by the registration endpoint's
  Conflict check. The repository and service create methods therefore
  require a free username.
- The null-dereference paths listed above are preconditions, not exception
  outcomes. The controller test at
  `MembershipUnitTest/Controllers/UserControllerUnitTest.cs:78-93` sends a
  request without a client, so the code as written would dereference null
  there.
- `CheckByteEquals`: "returns false without reading any element when the
  lengths differ" is not expressible over sequence values. Only the result is
  stated. No timing property is claimed.
- Token validation, the `[Authorize]` attribute and the JWT bearer settings
  (`Membership/Startup.cs`) are left out. The caller of `UpdateUserPassword`,
  `Activate` and `DeActivate` is taken to be already authenticated.
- Dependency injection, the in-memory database setup (`Membership/Startup.cs`,
  `Membership/Helper/ApiContext.cs`) and Swagger are left out.
- async/Task and concurrent requests: every operation runs alone.
- `Membership/Services/IUserService.cs` and
  `MembershipUnitTest/UserControllerUnitTest.cs` are out of date with
  respect to the service and controller. Signatures come from
  `UserService.cs` and `UserController.cs`.
