/**
 * src/users/users.service.ts: the user collection as an in-memory store.
 *
 * The collection's natural order is insertion order: `ids` lists the stored
 * ids in that order and `records` maps each id to its document. `findOne`
 * with a filter returns the first document, in that order, that matches.
 */
module Users {
  import opened Wrappers
  import opened Http
  import Bcrypt
  import ObjectId

  /**
   * A date field of a stored document: `Absent` while it was never written
   * (reading it gives `undefined`), `Null` once null was written over it,
   * or a time in milliseconds.
   */
  datatype StoredDate = Absent | Null | At(ms: nat)

  /**
   * The fields of src/users/schemas/user.schema.ts that the core reads or
   * writes. For the optional string fields an absent value and null behave
   * alike wherever the core reads them, so both are `None`.
   */
  datatype User = User(
    id: string,
    name: string,
    email: string,
    password: string,
    role: Option<string>,
    isEmailVerified: bool,
    verificationToken: Option<string>,
    refreshToken: Option<string>,
    lastLogin: Option<nat>,
    resetPasswordToken: Option<string>,
    resetPasswordExpires: StoredDate)

  /** CreateUserDto, with the two fields registration adds. */
  datatype CreateUserDto = CreateUserDto(
    name: string,
    email: string,
    password: string,
    verificationToken: Option<string>,
    isEmailVerified: Option<bool>)

  /**
   * The UpdateUserDto fields: `None` leaves a field alone; `Some(None)`
   * writes null.
   */
  datatype UpdateUserDto = UpdateUserDto(
    name: Option<string>,
    email: Option<string>,
    password: Option<string>,
    isEmailVerified: Option<bool>,
    verificationToken: Option<Option<string>>,
    refreshToken: Option<Option<string>>,
    lastLogin: Option<nat>,
    resetPasswordToken: Option<Option<string>>,
    resetPasswordExpires: Option<Option<nat>>)

  const NoChanges: UpdateUserDto := UpdateUserDto(None, None, None, None, None, None, None, None, None)

  function Choose<T>(given: Option<T>, current: T): T {
    if given.Some? then given.value else current
  }

  /** Writing a date field: a supplied date or null replaces what is stored. */
  function WriteDate(given: Option<Option<nat>>, current: StoredDate): StoredDate {
    match given
    case None => current
    case Some(None) => Null
    case Some(Some(t)) => At(t)
  }

  /** `findByIdAndUpdate(id, dto, {new: true})`: the supplied fields replace the stored ones. */
  function Apply(u: User, d: UpdateUserDto): User {
    u.(name := Choose(d.name, u.name),
       email := Choose(d.email, u.email),
       password := Choose(d.password, u.password),
       isEmailVerified := Choose(d.isEmailVerified, u.isEmailVerified),
       verificationToken := Choose(d.verificationToken, u.verificationToken),
       refreshToken := Choose(d.refreshToken, u.refreshToken),
       lastLogin := if d.lastLogin.Some? then d.lastLogin else u.lastLogin,
       resetPasswordToken := Choose(d.resetPasswordToken, u.resetPasswordToken),
       resetPasswordExpires := WriteDate(d.resetPasswordExpires, u.resetPasswordExpires))
  }

  /**
   * An update never touches the id or the role, an update that supplies no
   * name or email keeps them, and an update with no fields changes nothing.
   */
  lemma ApplyKeepsIdentity(u: User, d: UpdateUserDto)
    ensures Apply(u, d).id == u.id && Apply(u, d).role == u.role
    ensures d.name.None? ==> Apply(u, d).name == u.name
    ensures d.email.None? ==> Apply(u, d).email == u.email
    ensures Apply(u, NoChanges) == u
  {
  }

  datatype Store = Store(ids: seq<string>, records: map<string, User>)

  ghost predicate WellFormed(s: Store) {
    && (forall i :: 0 <= i < |s.ids| ==> s.ids[i] in s.records)
    && (forall id :: id in s.records ==> id in s.ids && s.records[id].id == id && ObjectId.IsValid(id))
  }

  datatype Filter = ByEmail(email: string) | ByResetToken(token: string)

  predicate Satisfies(u: User, f: Filter) {
    match f
    case ByEmail(e) => u.email == e
    case ByResetToken(t) => u.resetPasswordToken == Some(t)
  }

  /** Position in `ids` of the first document satisfying `f`, or `|ids|`. */
  function FirstIndex(ids: seq<string>, records: map<string, User>, f: Filter): (k: nat)
    requires forall i :: 0 <= i < |ids| ==> ids[i] in records
    ensures k <= |ids|
    ensures forall j :: 0 <= j < k ==> !Satisfies(records[ids[j]], f)
    ensures k < |ids| ==> Satisfies(records[ids[k]], f)
  {
    if |ids| == 0 then 0
    else if Satisfies(records[ids[0]], f) then 0
    else 1 + FirstIndex(ids[1..], records, f)
  }

  /** `Model.findOne(filter)`. */
  function StoreFindOneBy(s: Store, f: Filter): Option<User>
    requires WellFormed(s)
  {
    var k := FirstIndex(s.ids, s.records, f);
    if k < |s.ids| then Some(s.records[s.ids[k]]) else None
  }

  /** What `findOne(filter)` promises: a stored matching document, or no match at all. */
  lemma StoreFindOneBySound(s: Store, f: Filter)
    requires WellFormed(s)
    ensures var r := StoreFindOneBy(s, f);
            (r.Some? ==> r.value.id in s.records && s.records[r.value.id] == r.value && Satisfies(r.value, f)) &&
            (r.None? <==> forall id :: id in s.records ==> !Satisfies(s.records[id], f))
  {
    var k := FirstIndex(s.ids, s.records, f);
    if k == |s.ids| {
      forall id | id in s.records ensures !Satisfies(s.records[id], f) {
        var j :| 0 <= j < |s.ids| && s.ids[j] == id;
      }
    }
  }

  /** `FirstIndex` is the only position with its two defining properties. */
  lemma FirstIndexUnique(ids: seq<string>, records: map<string, User>, f: Filter, k: nat)
    requires forall i :: 0 <= i < |ids| ==> ids[i] in records
    requires k <= |ids|
    requires forall j :: 0 <= j < k ==> !Satisfies(records[ids[j]], f)
    requires k < |ids| ==> Satisfies(records[ids[k]], f)
    ensures FirstIndex(ids, records, f) == k
  {
  }

  /**
   * An update that does not change whether the updated document matches
   * `f` leaves the answer of `findOne(f)` in place: the same document, updated.
   */
  lemma FindOneByAfterUpdate(s: Store, id: string, d: UpdateUserDto, f: Filter)
    requires WellFormed(s) && id in s.records
    requires Satisfies(Apply(s.records[id], d), f) == Satisfies(s.records[id], f)
    ensures WellFormed(StoreUpdate(s, id, d).1)
    ensures StoreFindOneBy(StoreUpdate(s, id, d).1, f) ==
            match StoreFindOneBy(s, f)
            case None => None
            case Some(u) => Some(if u.id == id then Apply(u, d) else u)
  {
    StoreUpdateWellFormed(s, id, d);
    var s' := StoreUpdate(s, id, d).1;
    var k := FirstIndex(s.ids, s.records, f);
    forall j | 0 <= j < |s.ids| ensures Satisfies(s'.records[s.ids[j]], f) == Satisfies(s.records[s.ids[j]], f) {
    }
    FirstIndexUnique(s'.ids, s'.records, f, k);
  }

  /** A document added under a fresh id is found by `findOne(f)` when no earlier document matches. */
  lemma FindOneByAfterCreate(s: Store, id: string, dto: CreateUserDto, salt: nat, f: Filter)
    requires WellFormed(s) && ObjectId.IsValid(id) && id !in s.records
    requires forall k :: k in s.records ==> !Satisfies(s.records[k], f)
    requires Satisfies(NewRecord(id, dto, salt), f)
    ensures WellFormed(StoreCreate(s, id, dto, salt).1)
    ensures StoreFindOneBy(StoreCreate(s, id, dto, salt).1, f) == Some(NewRecord(id, dto, salt))
  {
    StoreCreateWellFormed(s, id, dto, salt);
    var s' := StoreCreate(s, id, dto, salt).1;
    assert s'.ids[|s.ids|] == id;
    forall j | 0 <= j < |s.ids| ensures !Satisfies(s'.records[s'.ids[j]], f) {
      assert s'.ids[j] == s.ids[j];
    }
    FirstIndexUnique(s'.ids, s'.records, f, |s.ids|);
  }

  /** `findOne(id)` of the service. */
  function StoreFindOne(s: Store, id: string): Result<User, HttpError> {
    if !ObjectId.IsValid(id) then Err(BadRequest("Invalid ID format"))
    else if id !in s.records then Err(NotFound("User not found"))
    else Ok(s.records[id])
  }

  /** `update(id, dto)` of the service: the result and the store afterwards. */
  function StoreUpdate(s: Store, id: string, d: UpdateUserDto): (Result<User, HttpError>, Store) {
    if !ObjectId.IsValid(id) then (Err(BadRequest("Invalid ID format")), s)
    else if id !in s.records then (Err(BadRequest("User not found")), s)
    else
      var u := Apply(s.records[id], d);
      (Ok(u), Store(s.ids, s.records[id := u]))
  }

  /** The document `create(dto)` saves under a fresh id. */
  function NewRecord(id: string, dto: CreateUserDto, salt: nat): User {
    User(id, dto.name, dto.email, UsersService.GeneratePassword(dto.password, salt), None,
         dto.isEmailVerified.GetOr(false), dto.verificationToken, None, None, None, Absent)
  }

  function StoreCreate(s: Store, id: string, dto: CreateUserDto, salt: nat): (User, Store) {
    var u := NewRecord(id, dto, salt);
    (u, Store(s.ids + [id], s.records[id := u]))
  }

  lemma StoreUpdateWellFormed(s: Store, id: string, d: UpdateUserDto)
    requires WellFormed(s)
    ensures WellFormed(StoreUpdate(s, id, d).1)
  {
  }

  lemma StoreCreateWellFormed(s: Store, id: string, dto: CreateUserDto, salt: nat)
    requires WellFormed(s) && ObjectId.IsValid(id) && id !in s.records
    ensures WellFormed(StoreCreate(s, id, dto, salt).1)
  {
    var s' := StoreCreate(s, id, dto, salt).1;
    forall i | 0 <= i < |s'.ids| ensures s'.ids[i] in s'.records {
      if i < |s.ids| { assert s'.ids[i] == s.ids[i]; }
    }
    forall k | k in s'.records ensures k in s'.ids {
      if k != id { assert k in s.ids; var j :| 0 <= j < |s.ids| && s.ids[j] == k; assert s'.ids[j] == k; }
      else { assert s'.ids[|s.ids|] == id; }
    }
  }

  class UsersService {
    var ids: seq<string>
    var records: map<string, User>

    function Contents(): Store
      reads this
    {
      Store(ids, records)
    }

    ghost predicate Valid()
      reads this
    {
      WellFormed(Contents())
    }

    constructor ()
      ensures Valid() && Contents() == Store([], map[])
    {
      ids := [];
      records := map[];
    }

    /** `hashPassword`: a salted bcrypt hash that matches the password. */
    static function HashPassword(password: string, salt: nat): (h: string)
      ensures Bcrypt.Compare(password, h)
      ensures h != password
    {
      Bcrypt.CompareHash(password, password, salt);
      Bcrypt.HashIsNotPlain(password, salt);
      Bcrypt.Hash(password, salt)
    }

    /** `generatePassword` has the same body as `hashPassword`. */
    static function GeneratePassword(password: string, salt: nat): (h: string)
      ensures h == HashPassword(password, salt)
    {
      Bcrypt.Hash(password, salt)
    }

    /** `isValidPassword`: bcrypt's compare; only a bcrypt hash, which starts with '$', can match. */
    static predicate IsValidPassword(password: string, hashedPassword: string)
      ensures IsValidPassword(password, hashedPassword) ==> |hashedPassword| >= 1 && hashedPassword[0] == '$'
    {
      Bcrypt.Compare(password, hashedPassword)
    }

    method Create(dto: CreateUserDto, id: string, salt: nat) returns (u: User)
      requires Valid()
      requires ObjectId.IsValid(id) && id !in records
      modifies this
      ensures Valid()
      ensures (u, Contents()) == StoreCreate(old(Contents()), id, dto, salt)
      ensures ids == old(ids) + [id] && records == old(records)[id := u]
      ensures u.id == id && u.name == dto.name && u.email == dto.email
      ensures IsValidPassword(dto.password, u.password) && u.password != dto.password
      ensures u.isEmailVerified == dto.isEmailVerified.GetOr(false)
      ensures u.verificationToken == dto.verificationToken
      ensures u.refreshToken.None? && u.lastLogin.None? && u.role.None?
      ensures u.resetPasswordToken.None? && u.resetPasswordExpires == Absent
    {
      StoreCreateWellFormed(Contents(), id, dto, salt);
      var hashedPassword := GeneratePassword(dto.password, salt);
      u := User(id, dto.name, dto.email, hashedPassword, None,
                dto.isEmailVerified.GetOr(false), dto.verificationToken, None, None, None, Absent);
      ids := ids + [id];
      records := records[id := u];
    }

    /** The first document, in natural order, that satisfies `f`. */
    method FindOneBy(f: Filter) returns (u: Option<User>)
      requires Valid()
      ensures u == StoreFindOneBy(Contents(), f)
    {
      var i := 0;
      while i < |ids|
        invariant 0 <= i <= |ids|
        invariant forall j :: 0 <= j < i ==> !Satisfies(records[ids[j]], f)
      {
        var candidate := records[ids[i]];
        if Satisfies(candidate, f) {
          return Some(candidate);
        }
        i := i + 1;
      }
      return None;
    }

    /** `findOneByUsername`: lookup by email equality; its not-found branch cannot fire. */
    method FindOneByUsername(username: string) returns (u: Option<User>)
      requires Valid()
      ensures u == StoreFindOneBy(Contents(), ByEmail(username))
      ensures u.Some? ==> u.value.email == username && u.value.id in records && records[u.value.id] == u.value
      ensures u.None? <==> forall id :: id in records ==> records[id].email != username
    {
      StoreFindOneBySound(Contents(), ByEmail(username));
      u := FindOneBy(ByEmail(username));
    }

    /** `findOneByResetToken`: lookup by exact equality with the stored reset token. */
    method FindOneByResetToken(resetToken: string) returns (u: Option<User>)
      requires Valid()
      ensures u == StoreFindOneBy(Contents(), ByResetToken(resetToken))
      ensures u.Some? ==> u.value.resetPasswordToken == Some(resetToken) && u.value.id in records && records[u.value.id] == u.value
      ensures u.None? <==> forall id :: id in records ==> records[id].resetPasswordToken != Some(resetToken)
    {
      StoreFindOneBySound(Contents(), ByResetToken(resetToken));
      u := FindOneBy(ByResetToken(resetToken));
    }

    /** `findOne(id)`: the id format is checked before the lookup. */
    method FindOne(id: string) returns (r: Result<User, HttpError>)
      ensures r == StoreFindOne(Contents(), id)
      ensures !ObjectId.IsValid(id) ==> r == Err(BadRequest("Invalid ID format"))
      ensures ObjectId.IsValid(id) && id !in records ==> r == Err(NotFound("User not found"))
      ensures r.Ok? <==> ObjectId.IsValid(id) && id in records
      ensures r.Ok? ==> r.value == records[id]
    {
      if !ObjectId.IsValid(id) {
        return Err(BadRequest("Invalid ID format"));
      }
      if id !in records {
        return Err(NotFound("User not found"));
      }
      return Ok(records[id]);
    }

    /** `update(id, dto)`: replaces exactly the supplied fields of one document. */
    method Update(id: string, dto: UpdateUserDto) returns (r: Result<User, HttpError>)
      requires Valid()
      modifies this
      ensures Valid()
      ensures (r, Contents()) == StoreUpdate(old(Contents()), id, dto)
      ensures ids == old(ids)
      ensures !ObjectId.IsValid(id) ==> r == Err(BadRequest("Invalid ID format")) && records == old(records)
      ensures ObjectId.IsValid(id) && id !in old(records) ==> r == Err(BadRequest("User not found")) && records == old(records)
      ensures r.Ok? ==> id in old(records) && r.value == Apply(old(records)[id], dto) && records == old(records)[id := r.value]
    {
      StoreUpdateWellFormed(Contents(), id, dto);
      if !ObjectId.IsValid(id) {
        return Err(BadRequest("Invalid ID format"));
      }
      if id !in records {
        return Err(BadRequest("User not found"));
      }
      var updated := Apply(records[id], dto);
      records := records[id := updated];
      return Ok(updated);
    }
  }
}
