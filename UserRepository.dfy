/**
 * The account table. Records are keyed by their Id and can also be found by
 * username. The pure functions over `Table` say what each repository
 * operation does to the table; the class `UserRepository` holds the table
 * and its methods are proved against those functions.
 */
module Repository {
  import opened Models

  type Table = map<Guid, UserInfoEntity>

  /**
   * Every record sits under its own Id, and no two records share a
   * username; `SingleOrDefault` by username relies on the second.
   */
  ghost predicate WellFormed(t: Table) {
    && (forall id :: id in t ==> t[id].id == id)
    && (forall id1, id2 :: id1 in t && id2 in t && t[id1].username == t[id2].username ==> id1 == id2)
  }

  predicate UsernameTaken(t: Table, username: NString) {
    exists id :: id in t && t[id].username == username
  }

  /** `GetUserByUsernameAsync`: the one record with that username, or null when there is none. */
  function FindByUsername(t: Table, username: NString): (r: Option<UserInfoEntity>)
    requires WellFormed(t)
    ensures r.None? <==> !UsernameTaken(t, username)
    ensures forall id :: id in t && t[id].username == username ==> r == Some(t[id])
    ensures r.Some? ==> r.value.username == username && r.value.id in t && t[r.value.id] == r.value
  {
    if UsernameTaken(t, username) then
      var id :| id in t && t[id].username == username;
      Some(t[id])
    else
      None
  }

  /** `GetUserByIdAsync`: the one record whose Id field is `id`, or null when there is none. */
  function FindById(t: Table, id: Guid): (r: Option<UserInfoEntity>)
    requires WellFormed(t)
    ensures r.None? <==> !(exists k :: k in t && t[k].id == id)
    ensures forall k :: k in t && t[k].id == id ==> r == Some(t[k])
  {
    if id in t then Some(t[id]) else None
  }

  /** The key a new record is stored under: its own Id, or the store-generated one when its Id is empty. */
  function StoredId(e: UserInfoEntity, generatedId: Guid): Guid {
    if e.id == EmptyGuid then generatedId else e.id
  }

  /** The table after a new record is added under a free key. */
  function Insert(t: Table, e: UserInfoEntity, key: Guid): (r: Table)
    requires WellFormed(t)
    requires key !in t
    requires !UsernameTaken(t, e.username)
    ensures WellFormed(r)
    ensures r.Keys == t.Keys + {key}
    ensures forall id :: id in t ==> r[id] == t[id]
    ensures FindByUsername(r, e.username) == Some(e.(id := key))
  {
    var r := t[key := e.(id := key)];
    assert r[key].username == e.username;
    r
  }

  /** `UpdatePasswordAsync` on the table: only hash and salt of record `e.Id` are taken from `e`. */
  function WithPassword(t: Table, e: UserInfoEntity): (r: Table)
    requires WellFormed(t) && e.id in t
    ensures WellFormed(r)
    ensures r.Keys == t.Keys
    ensures forall id :: id in t && id != e.id ==> r[id] == t[id]
    ensures r[e.id].passwordHash == e.passwordHash && r[e.id].passwordSalt == e.passwordSalt
    ensures SameExceptCredentials(r[e.id], t[e.id])
  {
    t[e.id := t[e.id].(passwordHash := e.passwordHash, passwordSalt := e.passwordSalt)]
  }

  /** `UpdateAsync` on the table: only the three activation flags of record `e.Id` are taken from `e`. */
  function WithActivation(t: Table, e: UserInfoEntity): (r: Table)
    requires WellFormed(t) && e.id in t
    ensures WellFormed(r)
    ensures r.Keys == t.Keys
    ensures forall id :: id in t && id != e.id ==> r[id] == t[id]
    ensures forall c :: Flag(r[e.id], c) == Flag(e, c)
    ensures SameExceptActivation(r[e.id], t[e.id])
  {
    t[e.id := t[e.id].(activateStatusA := e.activateStatusA,
                       activateStatusB := e.activateStatusB,
                       activateStatusC := e.activateStatusC)]
  }

  lemma WithPasswordIdempotent(t: Table, e: UserInfoEntity)
    requires WellFormed(t) && e.id in t
    ensures WithPassword(WithPassword(t, e), e) == WithPassword(t, e)
  {
  }

  lemma WithActivationIdempotent(t: Table, e: UserInfoEntity)
    requires WellFormed(t) && e.id in t
    ensures WithActivation(WithActivation(t, e), e) == WithActivation(t, e)
  {
  }

  /**
   * Replacing a record by one with the same Id and username keeps the table
   * well formed, and a lookup by username then finds the new record or what
   * it found before.
   */
  lemma FindAfterReplace(t: Table, rec: UserInfoEntity, u: NString)
    requires WellFormed(t) && rec.id in t && rec.username == t[rec.id].username
    ensures WellFormed(t[rec.id := rec])
    ensures FindByUsername(t[rec.id := rec], u) == if u == rec.username then Some(rec) else FindByUsername(t, u)
  {
    var t' := t[rec.id := rec];
    assert t'[rec.id].username == rec.username;
    if u != rec.username {
      assert UsernameTaken(t', u) <==> UsernameTaken(t, u) by {
        if UsernameTaken(t, u) {
          var id :| id in t && t[id].username == u;
          assert id != rec.id && t'[id] == t[id];
        }
        if UsernameTaken(t', u) {
          var id :| id in t' && t'[id].username == u;
          assert id != rec.id && t'[id] == t[id];
        }
      }
    }
  }

  /** The record table, as the database context holds it. */
  class UserRepository {
    var records: Table

    ghost predicate Valid()
      reads this
    {
      WellFormed(records)
    }

    constructor ()
      ensures Valid() && records == map[]
    {
      records := map[];
    }

    /**
     * `CreateUserAsync`: add the record and report the number of rows
     * written. A key already in use is a rejected save: nothing is written.
     */
    method CreateUser(e: UserInfoEntity, generatedId: Guid) returns (count: int)
      requires Valid()
      requires generatedId != EmptyGuid && generatedId !in records
      requires !UsernameTaken(records, e.username)
      modifies this
      ensures Valid()
      ensures var key := StoredId(e, generatedId);
              if key in old(records) then count == 0 && records == old(records)
              else count == 1 && records == Insert(old(records), e, key)
    {
      var key := StoredId(e, generatedId);
      if key in records {
        count := 0;
      } else {
        records := Insert(records, e, key);
        count := 1;
      }
    }

    /** `UpdatePasswordAsync`: fetch the record by Id and overwrite its hash and salt. */
    method UpdatePassword(e: UserInfoEntity) returns (count: int)
      requires Valid() && e.id in records
      modifies this
      ensures Valid() && count == 1
      ensures records == WithPassword(old(records), e)
    {
      var user := FindById(records, e.id).value;
      user := user.(passwordHash := e.passwordHash, passwordSalt := e.passwordSalt);
      records := records[user.id := user];
      count := 1;
    }

    /** `UpdateAsync`: fetch the record by Id and overwrite its three activation flags. */
    method Update(e: UserInfoEntity) returns (count: int)
      requires Valid() && e.id in records
      modifies this
      ensures Valid() && count == 1
      ensures records == WithActivation(old(records), e)
    {
      var user := FindById(records, e.id).value;
      user := user.(activateStatusA := e.activateStatusA,
                    activateStatusB := e.activateStatusB,
                    activateStatusC := e.activateStatusC);
      records := records[user.id := user];
      count := 1;
    }
  }
}
