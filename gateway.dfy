/** The public API gateway: registration and login against the `users` table,
    and the guard in front of the bulk upload. */
module ApiGateway {
  import opened Forms
  import opened Users
  import opened Responses
  import opened Validation
  import opened Ordering
  import UserService

  /** The multipart form of `POST /create_user`. */
  datatype RegistrationForm = RegistrationForm(
    firstName: Option<string>,
    middleName: Option<string>,
    lastName: Option<string>,
    email: Option<string>,
    phone: Option<string>,
    password: Option<string>,
    role: Option<string>,
    profilePic: Option<Upload>)

  const RoleList: seq<string> := ["Sub-admin", "admin", "user"]
  const PasswordRequired := "Password is required"
  const InvalidRole := "Please enter valid role i.e Sub-admin, admin, user"
  const DuplicateIdentity := "Email or phone number already in use"
  const UserCreated := "User created successfully"
  const EmailIdRequired := "Email ID is required"
  const UnknownEmail := "Invalid User Credentials!"
  const WrongPassword := "Invalid credentials"

  /** Registration's checks in the order the handler makes them. */
  function RegistrationChecks(f: RegistrationForm): seq<Check> {
    ContactChecks(f.firstName, f.lastName, f.email, f.phone) +
    [ Check(Truthy(f.password), PasswordRequired),
      Check(f.role.Some? && f.role.value in RoleList, InvalidRole) ]
  }

  /** The form passes every registration check. */
  predicate WellFormed(f: RegistrationForm) {
    ContactsValid(f) && Truthy(f.password) && f.role.Some? && f.role.value in RoleList
  }

  /** Registration reports the first failing check: names, then email, then a
      ten-character phone number, then password, then one of the three roles. */
  lemma {:induction false} RegistrationPrecedence(f: RegistrationForm)
    ensures !(Truthy(f.firstName) && Truthy(f.lastName)) ==>
      FirstFailure(RegistrationChecks(f)) == Some(NamesRequired)
    ensures Truthy(f.firstName) && Truthy(f.lastName) && !Truthy(f.email) ==>
      FirstFailure(RegistrationChecks(f)) == Some(EmailRequired)
    ensures (Truthy(f.firstName) && Truthy(f.lastName) && Truthy(f.email) &&
             !(Truthy(f.phone) && |f.phone.value| == 10)) ==>
      FirstFailure(RegistrationChecks(f)) == Some(InvalidPhone)
    ensures ContactsValid(f) && !Truthy(f.password) ==>
      FirstFailure(RegistrationChecks(f)) == Some(PasswordRequired)
    ensures ContactsValid(f) && Truthy(f.password) && !(f.role.Some? && f.role.value in RoleList) ==>
      FirstFailure(RegistrationChecks(f)) == Some(InvalidRole)
    ensures FirstFailure(RegistrationChecks(f)).None? <==> WellFormed(f)
  {
    var tail := [Check(Truthy(f.password), PasswordRequired),
                 Check(f.role.Some? && f.role.value in RoleList, InvalidRole)];
    ContactPrecedence(f.firstName, f.lastName, f.email, f.phone, tail);
    assert tail[1..][1..] == [];
  }

  /** Names, email and phone number pass. */
  predicate ContactsValid(f: RegistrationForm) {
    Truthy(f.firstName) && Truthy(f.lastName) && Truthy(f.email) &&
    Truthy(f.phone) && |f.phone.value| == 10
  }

  /** `profile_pics/<hex>_<name>`: the object key of an uploaded picture. */
  function ObjectKey(hex: string, filename: string): string {
    "profile_pics/" + hex + "_" + filename
  }

  /** The row registration inserts for a well-formed form. */
  function NewUser(f: RegistrationForm, hashed: string, key: string): User
    requires WellFormed(f)
  {
    User(f.firstName.value, Some(PyStr(f.middleName)), f.lastName.value, f.email.value,
         f.phone.value, hashed, f.role.value, Some(key))
  }

  /** `SELECT * FROM users WHERE email = e` followed by `fetchone()`: the row
      with the smallest id among those holding the email. */
  function LookupByEmail(rows: map<int, User>, email: string): (r: Option<int>)
    ensures r.None? <==> forall id :: id in rows ==> rows[id].email != email
    ensures r.Some? ==> r.value in rows && rows[r.value].email == email
    ensures r.Some? ==> forall id :: id in rows && rows[id].email == email ==> r.value <= id
  {
    var ids := set id | id in rows && rows[id].email == email;
    assert forall id :: id in rows && rows[id].email == email ==> id in ids;
    if ids == {} then None else Some(Least(ids))
  }

  /** `POST /login`. `hash` is the password digest and `issue` the token
      issuer; neither is interpreted. The table is only read. */
  function Login(rows: map<int, User>, email: Option<string>, password: Option<string>,
                 hash: string -> string, issue: string -> string): (r: Response)
    ensures !Truthy(email) ==> r == Response(400, Msg(EmailIdRequired))
    ensures Truthy(email) && !Truthy(password) ==> r == Response(400, Msg(PasswordRequired))
    ensures (Truthy(email) && Truthy(password) &&
             forall id :: id in rows ==> rows[id].email != email.value) ==>
      r == Response(401, Msg(UnknownEmail))
    ensures r.status == 200 || r.status == 400 || r.status == 401
    ensures r.status == 200 ==>
      Truthy(email) && Truthy(password) && r.body == AccessToken(issue(email.value)) &&
      exists id :: id in rows && rows[id].email == email.value && rows[id].password == hash(password.value)
    ensures r.status == 401 && r.body != Msg(UnknownEmail) ==>
      r.body == Msg(WrongPassword) &&
      exists id :: id in rows && rows[id].email == email.value && rows[id].password != hash(password.value)
  {
    if !Truthy(email) then Response(400, Msg(EmailIdRequired))
    else if !Truthy(password) then Response(400, Msg(PasswordRequired))
    else match LookupByEmail(rows, email.value)
      case None => Response(401, Msg(UnknownEmail))
      case Some(id) =>
        if email.value == rows[id].email && hash(password.value) == rows[id].password
        then Response(200, AccessToken(issue(email.value)))
        else Response(401, Msg(WrongPassword))
  }

  /** At most one row holds the email. */
  predicate EmailHeldOnce(rows: map<int, User>, email: string) {
    forall i, j :: i in rows && j in rows && rows[i].email == email && rows[j].email == email ==> i == j
  }

  /** When the email is held by at most one row, a token is issued exactly
      when that row's stored digest is the digest of the password. */
  lemma LoginSucceedsIffDigestMatches(rows: map<int, User>, email: string, password: string,
                                      hash: string -> string, issue: string -> string)
    requires email != "" && password != "" && EmailHeldOnce(rows, email)
    ensures Login(rows, Some(email), Some(password), hash, issue).status == 200 <==>
      exists id :: id in rows && rows[id].email == email && rows[id].password == hash(password)
  {
    if exists id :: id in rows && rows[id].email == email && rows[id].password == hash(password) {
      var id :| id in rows && rows[id].email == email && rows[id].password == hash(password);
      var found := LookupByEmail(rows, email);
      assert found == Some(id);
    }
  }

  /** The two 401 answers are told apart by their message: an unknown email and
      a wrong password for a known one get the same status, different bodies. */
  lemma LoginRevealsUnknownEmail(rows: map<int, User>, known: string, unknown: string,
                                 password: string, hash: string -> string, issue: string -> string)
    requires known != "" && unknown != "" && password != ""
    requires exists id :: id in rows && rows[id].email == known
    requires forall id :: id in rows && rows[id].email == known ==> rows[id].password != hash(password)
    requires forall id :: id in rows ==> rows[id].email != unknown
    ensures Login(rows, Some(known), Some(password), hash, issue).status ==
            Login(rows, Some(unknown), Some(password), hash, issue).status == 401
    ensures Login(rows, Some(known), Some(password), hash, issue).body == Msg(WrongPassword)
    ensures Login(rows, Some(unknown), Some(password), hash, issue).body == Msg(UnknownEmail)
  {
  }

  /** A freshly registered row, whose email no other row holds, logs in with its password. */
  lemma LoginAfterRegistration(rows: map<int, User>, id: int, u: User, password: string,
                               hash: string -> string, issue: string -> string)
    requires id !in rows && !EmailOrPhoneTaken(rows, u.email, u.phone)
    requires u.email != "" && password != "" && u.password == hash(password)
    ensures Login(rows[id := u], Some(u.email), Some(password), hash, issue) ==
            Response(200, AccessToken(issue(u.email)))
  {
    var after := rows[id := u];
    forall i | i in rows ensures rows[i].email != u.email {
      assert !(rows[i].email == u.email || rows[i].phone == u.phone);
    }
    var found := LookupByEmail(after, u.email);
    assert after[id].email == u.email;
    assert found.Some? && found.value == id;
  }

  /** The gateway process: its handle on the `users` table, the uninterpreted
      digest, token issuer and filename sanitiser, and the object-store keys it
      has written. */
  class Gateway {
    const db: Table
    const hash: string -> string
    const issue: string -> string
    const sanitize: string -> string
    var objectKeys: seq<string>

    constructor (db: Table, hash: string -> string, issue: string -> string, sanitize: string -> string)
      ensures this.db == db && this.hash == hash && this.issue == issue && this.sanitize == sanitize
      ensures objectKeys == []
    {
      this.db := db;
      this.hash := hash;
      this.issue := issue;
      this.sanitize := sanitize;
      objectKeys := [];
    }

    /** `POST /create_user`. `hex` is the random identifier `uuid4().hex`. */
    method CreateCustomer(f: RegistrationForm, hex: string) returns (resp: Response)
      requires db.Valid()
      modifies this, db
      ensures db.Valid()
      // the digest is taken before anything is checked
      ensures f.password.None? ==>
        resp == Response(500, Crash(HashOfMissingPassword)) &&
        db.rows == old(db.rows) && db.nextId == old(db.nextId) && objectKeys == old(objectKeys)
      ensures f.password.Some? && !WellFormed(f) ==>
        (exists m :: resp == Response(400, Message(m)) && FirstFailure(RegistrationChecks(f)) == Some(m)) &&
        db.rows == old(db.rows) && db.nextId == old(db.nextId) && objectKeys == old(objectKeys)
      // the picture goes to the object store before the duplicate check
      ensures WellFormed(f) ==>
        objectKeys == old(objectKeys) +
          (if FilePresent(f.profilePic) then [ObjectKey(hex, sanitize(f.profilePic.value.filename))] else [])
      ensures WellFormed(f) && EmailOrPhoneTaken(old(db.rows), f.email.value, f.phone.value) ==>
        resp == BadRequest(DuplicateIdentity) && db.rows == old(db.rows) && db.nextId == old(db.nextId)
      // without a picture the key is never bound and the insert fails
      ensures (WellFormed(f) && !EmailOrPhoneTaken(old(db.rows), f.email.value, f.phone.value) &&
               !FilePresent(f.profilePic)) ==>
        resp == Response(500, Crash(UnboundProfilePicKey)) && db.rows == old(db.rows) && db.nextId == old(db.nextId)
      ensures (WellFormed(f) && !EmailOrPhoneTaken(old(db.rows), f.email.value, f.phone.value) &&
               FilePresent(f.profilePic)) ==>
        resp == Response(201, Envelope(true, 200, UserCreated)) &&
        db.rows == old(db.rows)[old(db.nextId) :=
          NewUser(f, hash(f.password.value), ObjectKey(hex, sanitize(f.profilePic.value.filename)))] &&
        db.nextId == old(db.nextId) + 1
      ensures resp.body == Message(PasswordRequired) ==> f.password == Some("")
      ensures Unique(old(db.rows)) ==> Unique(db.rows)
      ensures resp.status == 201 ==>
        Login(db.rows, f.email, f.password, hash, issue) == Response(200, AccessToken(issue(f.email.value)))
    {
      if f.password.None? {
        return Response(500, Crash(HashOfMissingPassword));
      }
      var hashed := hash(f.password.value);
      RegistrationPrecedence(f);
      if !Truthy(f.firstName) || !Truthy(f.lastName) {
        return Response(400, Message(NamesRequired));
      }
      if !Truthy(f.email) {
        return Response(400, Message(EmailRequired));
      }
      if !Truthy(f.phone) || |f.phone.value| != 10 {
        return Response(400, Message(InvalidPhone));
      }
      if !Truthy(f.password) {
        return Response(400, Message(PasswordRequired));
      }
      if f.role.None? || f.role.value !in RoleList {
        return Response(400, Message(InvalidRole));
      }
      var uniqueFilename: Option<string> := None;
      if FilePresent(f.profilePic) {
        uniqueFilename := Some(ObjectKey(hex, sanitize(f.profilePic.value.filename)));
        objectKeys := objectKeys + [uniqueFilename.value];
      }
      if EmailOrPhoneTaken(db.rows, f.email.value, f.phone.value) {
        return BadRequest(DuplicateIdentity);
      }
      if uniqueFilename.None? {
        return Response(500, Crash(UnboundProfilePicKey));
      }
      var row := NewUser(f, hashed, uniqueFilename.value);
      ghost var before := db.rows;
      var id := db.Insert(row);
      if Unique(before) {
        InsertKeepsUnique(before, id, row);
      }
      LoginAfterRegistration(before, id, row, f.password.value, hash, issue);
      return Response(201, Envelope(true, 200, UserCreated));
    }

    /** `POST /upload`: reject a request without a file, otherwise relay the
        user service's answer unchanged. */
    method UploadCsv(file: Option<Upload>, service: UserService.ProfileService) returns (resp: Response)
      modifies service
      ensures !FilePresent(file) ==>
        resp == Response(400, Error(UserService.NoFileUploaded)) &&
        service.saved == old(service.saved) && service.jobs == old(service.jobs)
      ensures FilePresent(file) ==>
        var name := service.sanitize(file.value.filename);
        var added := if UserService.AcceptedName(name) then [UserService.JoinPath(UserService.UploadFolder, name)] else [];
        resp == (if UserService.AcceptedName(name) then Response(202, Message(UserService.ProcessingStarted))
                 else Response(400, Error(UserService.InvalidFormat))) &&
        service.saved == old(service.saved) + added && service.jobs == old(service.jobs) + added
    {
      if !FilePresent(file) {
        return Response(400, Error(UserService.NoFileUploaded));
      }
      resp := service.ProfileBulkUpload(file);
    }
  }
}
