/** The internal user service: profile reads, paginated listing, update and
    delete over the `users` table, and acceptance of bulk-upload files. */
module UserService {
  import opened Forms
  import opened Users
  import opened Responses
  import opened Validation
  import opened Ordering

  const UserIdRequired := "User ID is required"
  const UserNotFound := "User not found"
  const NotAuthorized := "You are not authorized to update user data."
  const NotUpdated := "User not Updated Successfully"
  const UpdatedMessage := "User Data Updated Successfully"
  const NotDeleted := "User not Deleted Successfully"
  const DeletedMessage := "User Deleted Successfully"
  const DefaultPageSize := 10
  const DefaultPage := 1
  const UploadFolder := "uploads"
  const NoFileUploaded := "No file uploaded"
  const ProcessingStarted := "File uploaded. Processing started."
  const InvalidFormat := "Invalid file format"

  /** `GET /profile?user_id=...`. */
  function GetProfile(rows: map<int, User>, userId: Option<int>): (r: Response)
    ensures userId.None? ==> r == BadRequest(UserIdRequired)
    ensures userId.Some? && userId.value !in rows ==> r == NotFound(UserNotFound)
    ensures r.status == 200 <==> userId.Some? && userId.value in rows
    ensures r.status == 200 ==> r.body == ProfileData(200, Project(userId.value, rows[userId.value]))
  {
    if userId.None? then BadRequest(UserIdRequired)
    else if userId.value !in rows then NotFound(UserNotFound)
    else Response(200, ProfileData(200, Project(userId.value, rows[userId.value])))
  }

  /** Two tables that differ at most in their stored passwords. */
  predicate SameButPasswords(rows: map<int, User>, other: map<int, User>) {
    rows.Keys == other.Keys &&
    forall id :: id in rows ==> other[id] == rows[id].(password := other[id].password)
  }

  /** The profile read never depends on the stored password. */
  lemma GetProfileIgnoresPasswords(rows: map<int, User>, other: map<int, User>, userId: Option<int>)
    requires SameButPasswords(rows, other)
    ensures GetProfile(rows, userId) == GetProfile(other, userId)
  {
    if userId.Some? && userId.value in rows {
      ProjectIgnoresPassword(userId.value, rows[userId.value], other[userId.value].password);
    }
  }

  /** `page_size` and `page` with their defaults 10 and 1. */
  function PageSize(pageSize: Option<int>): int {
    if pageSize.Some? then pageSize.value else DefaultPageSize
  }

  function PageNumber(page: Option<int>): int {
    if page.Some? then page.value else DefaultPage
  }

  /** `offset = (page - 1) * page_size`. */
  function Offset(pageSize: Option<int>, page: Option<int>): int {
    (PageNumber(page) - 1) * PageSize(pageSize)
  }

  /** The selected columns of the rows with the given ids, in that order. */
  function Projected(rows: map<int, User>, ids: seq<int>): seq<Profile>
    requires forall i :: 0 <= i < |ids| ==> ids[i] in rows
  {
    seq(|ids|, i requires 0 <= i < |ids| => Project(ids[i], rows[ids[i]]))
  }

  /** `GET /profiles`: `ORDER BY id DESC LIMIT page_size OFFSET offset`.
      MySQL refuses a negative limit or offset, which surfaces as a 500. */
  function ListProfiles(rows: map<int, User>, pageSize: Option<int>, page: Option<int>): (r: Response)
    ensures r.status == 200 <==> PageSize(pageSize) >= 0 && Offset(pageSize, page) >= 0
    ensures r.status != 200 ==> r == Response(500, Crash(InvalidLimitOrOffset))
    ensures r.status == 200 ==>
      var size, offset, ids := PageSize(pageSize), Offset(pageSize, page), DescendingIds(rows.Keys);
      r.body.ProfileList? && r.body.code == 200 &&
      |r.body.profiles| <= size &&
      |r.body.profiles| == (if offset >= |ids| then 0 else if offset + size <= |ids| then size else |ids| - offset) &&
      forall i :: 0 <= i < |r.body.profiles| ==>
        offset + i < |ids| && r.body.profiles[i] == Project(ids[offset + i], rows[ids[offset + i]])
  {
    var size, offset := PageSize(pageSize), Offset(pageSize, page);
    if size < 0 || offset < 0 then Response(500, Crash(InvalidLimitOrOffset))
    else
      var ids := DescendingIds(rows.Keys);
      var window := Window(ids, offset, size);
      Response(200, ProfileList(200, Projected(rows, window)))
  }

  /** A listed page runs in strictly descending id order. */
  lemma {:induction false} ListingDescending(rows: map<int, User>, pageSize: Option<int>, page: Option<int>)
    requires ListProfiles(rows, pageSize, page).status == 200
    ensures var ps := ListProfiles(rows, pageSize, page).body.profiles;
      forall i, j :: 0 <= i < j < |ps| ==> ps[i].id > ps[j].id
  {
    var ps := ListProfiles(rows, pageSize, page).body.profiles;
    var ids := DescendingIds(rows.Keys);
    var w := Window(ids, Offset(pageSize, page), PageSize(pageSize));
    WindowDescending(ids, Offset(pageSize, page), PageSize(pageSize));
    assert ps == Projected(rows, w);
    forall i, j | 0 <= i < j < |ps| ensures ps[i].id > ps[j].id {
      assert ps[i].id == w[i] && ps[j].id == w[j];
    }
  }

  /** With twenty or more rows, the default-sized second page holds the 11th to
      20th largest ids. */
  lemma SecondPage(rows: map<int, User>)
    requires |rows.Keys| >= 20
    ensures var r := ListProfiles(rows, None, Some(2));
      r.status == 200 && |r.body.profiles| == 10 &&
      forall i :: 0 <= i < 10 ==> r.body.profiles[i].id == DescendingIds(rows.Keys)[10 + i]
  {
  }

  /** The row with the largest id, the newest under auto-increment, opens the first page. */
  lemma {:induction false} NewestListedFirst(rows: map<int, User>, id: int, pageSize: Option<int>)
    requires id in rows && forall k :: k in rows ==> k <= id
    requires PageSize(pageSize) > 0
    ensures var r := ListProfiles(rows, pageSize, None);
      r.status == 200 && |r.body.profiles| > 0 && r.body.profiles[0].id == id
  {
    GreatestListedFirst(rows.Keys, id);
  }

  /** The listing never depends on the stored passwords. */
  lemma {:induction false} ListProfilesIgnoresPasswords(rows: map<int, User>, other: map<int, User>,
                                                        pageSize: Option<int>, page: Option<int>)
    requires SameButPasswords(rows, other)
    ensures ListProfiles(rows, pageSize, page) == ListProfiles(other, pageSize, page)
  {
    var a, b := ListProfiles(rows, pageSize, page), ListProfiles(other, pageSize, page);
    if a.status == 200 {
      var ids := DescendingIds(rows.Keys);
      var offset := Offset(pageSize, page);
      forall i | 0 <= i < |a.body.profiles| ensures a.body.profiles[i] == b.body.profiles[i] {
        var id := ids[offset + i];
        ProjectIgnoresPassword(id, rows[id], other[id].password);
      }
    }
  }

  /** The JSON body of `POST /profileUpdate`. */
  datatype UpdateRequest = UpdateRequest(
    userId: Option<int>,
    firstName: Option<string>,
    middleName: Option<string>,
    lastName: Option<string>,
    email: Option<string>,
    phone: Option<string>,
    profilePic: Option<string>)

  /** The update's checks: registration's contact checks, then the user id. */
  function UpdateChecks(q: UpdateRequest): seq<Check> {
    ContactChecks(q.firstName, q.lastName, q.email, q.phone) + [Check(q.userId.Some?, UserIdRequired)]
  }

  /** The request passes every update check. */
  predicate UpdateWellFormed(q: UpdateRequest) {
    Truthy(q.firstName) && Truthy(q.lastName) && Truthy(q.email) &&
    Truthy(q.phone) && |q.phone.value| == 10 && q.userId.Some?
  }

  /** The update validates names, email and phone before it looks at the user id. */
  lemma {:induction false} UpdatePrecedence(q: UpdateRequest)
    ensures !(Truthy(q.firstName) && Truthy(q.lastName)) ==>
      FirstFailure(UpdateChecks(q)) == Some(NamesRequired)
    ensures Truthy(q.firstName) && Truthy(q.lastName) && !Truthy(q.email) ==>
      FirstFailure(UpdateChecks(q)) == Some(EmailRequired)
    ensures (Truthy(q.firstName) && Truthy(q.lastName) && Truthy(q.email) &&
             !(Truthy(q.phone) && |q.phone.value| == 10)) ==>
      FirstFailure(UpdateChecks(q)) == Some(InvalidPhone)
    ensures (Truthy(q.firstName) && Truthy(q.lastName) && Truthy(q.email) &&
             Truthy(q.phone) && |q.phone.value| == 10 && q.userId.None?) ==>
      FirstFailure(UpdateChecks(q)) == Some(UserIdRequired)
    ensures FirstFailure(UpdateChecks(q)).None? <==> UpdateWellFormed(q)
  {
    var tail := [Check(q.userId.Some?, UserIdRequired)];
    ContactPrecedence(q.firstName, q.lastName, q.email, q.phone, tail);
    assert tail[1..] == [];
  }

  /** `filename.endswith('.csv') or filename.endswith('.xlsx')`, case-sensitive. */
  predicate AcceptedName(name: string) {
    EndsWith(name, ".csv") || EndsWith(name, ".xlsx")
  }

  /** A name is accepted exactly when it is some stem followed by `.csv` or `.xlsx`. */
  lemma AcceptedNameIffSuffix(name: string)
    ensures AcceptedName(name) <==>
      exists stem: string :: name == stem + ".csv" || name == stem + ".xlsx"
  {
    if EndsWith(name, ".csv") {
      assert name == name[..|name| - 4] + ".csv";
    } else if EndsWith(name, ".xlsx") {
      assert name == name[..|name| - 5] + ".xlsx";
    }
    if exists stem: string :: name == stem + ".csv" || name == stem + ".xlsx" {
      var stem: string :| name == stem + ".csv" || name == stem + ".xlsx";
      if name == stem + ".csv" {
        assert name[|name| - 4..] == ".csv";
      } else {
        assert name[|name| - 5..] == ".xlsx";
      }
    }
  }

  /** The suffix check on data.csv, data.xlsx, data.txt and an upper-case suffix. */
  lemma AcceptedNameExamples()
    ensures AcceptedName("data.csv") && AcceptedName("data.xlsx")
    ensures !AcceptedName("data.txt") && !AcceptedName("data.CSV")
  {
    assert "data.csv"[4..] == ".csv";
    assert "data.xlsx"[4..] == ".xlsx";
  }

  /** `os.path.join(folder, name)` for a non-empty folder not ending in `/`
      (it is only called with `UploadFolder`): an absolute name replaces the
      folder, any other name goes under it. */
  function JoinPath(folder: string, name: string): string {
    if |name| > 0 && name[0] == '/' then name else folder + "/" + name
  }

  /** The user service process: its handle on the `users` table, the
      uninterpreted filename sanitiser, the files it has saved and the
      `process_csv` jobs it has enqueued (each by file path). */
  class ProfileService {
    const db: Table
    const sanitize: string -> string
    var saved: seq<string>
    var jobs: seq<string>

    constructor (db: Table, sanitize: string -> string)
      ensures this.db == db && this.sanitize == sanitize
      ensures saved == [] && jobs == []
    {
      this.db := db;
      this.sanitize := sanitize;
      saved := [];
      jobs := [];
    }

    /** `POST /profileUpdate`. The authorization gate looks at the stored role
        of the row being updated, not at the caller. */
    method ProfileUpdate(q: UpdateRequest) returns (resp: Response)
      requires db.Valid()
      modifies db
      ensures db.Valid() && db.nextId == old(db.nextId)
      ensures !UpdateWellFormed(q) ==>
        (exists m :: resp == BadRequest(m) && FirstFailure(UpdateChecks(q)) == Some(m)) &&
        db.rows == old(db.rows)
      ensures UpdateWellFormed(q) && q.userId.value !in old(db.rows) ==>
        resp == NotFound(UserNotFound) && db.rows == old(db.rows)
      ensures (UpdateWellFormed(q) && q.userId.value in old(db.rows) &&
               old(db.rows)[q.userId.value].role == "user") ==>
        resp == BadRequest(NotAuthorized) && db.rows == old(db.rows)
      ensures (UpdateWellFormed(q) && q.userId.value in old(db.rows) &&
               old(db.rows)[q.userId.value].role != "user") ==>
        resp == Ok(UpdatedMessage) &&
        db.rows == old(db.rows)[q.userId.value :=
          Overwrite(old(db.rows)[q.userId.value], q.firstName.value, q.middleName, q.lastName.value,
                    q.email.value, q.phone.value, q.profilePic)]
    {
      UpdatePrecedence(q);
      if !Truthy(q.firstName) || !Truthy(q.lastName) {
        return BadRequest(NamesRequired);
      }
      if !Truthy(q.email) {
        return BadRequest(EmailRequired);
      }
      if !Truthy(q.phone) || |q.phone.value| != 10 {
        return BadRequest(InvalidPhone);
      }
      if q.userId.None? {
        return BadRequest(UserIdRequired);
      }
      var id := q.userId.value;
      if id in db.rows && db.rows[id].role == "user" {
        return BadRequest(NotAuthorized);
      } else if id !in db.rows {
        return NotFound(UserNotFound);
      }
      var affected := db.UpdateRow(id, q.firstName.value, q.middleName, q.lastName.value,
                                   q.email.value, q.phone.value, q.profilePic);
      if !affected {
        return NotFound(NotUpdated);
      }
      return Ok(UpdatedMessage);
    }

    /** `DELETE /profileDelete?user_id=...`. */
    method ProfileDelete(userId: Option<int>) returns (resp: Response)
      requires db.Valid()
      modifies db
      ensures db.Valid() && db.nextId == old(db.nextId)
      ensures userId.None? ==> resp == BadRequest(UserIdRequired) && db.rows == old(db.rows)
      ensures userId.Some? ==>
        db.rows == old(db.rows) - {userId.value} &&
        resp == if userId.value in old(db.rows) then Ok(DeletedMessage) else NotFound(NotDeleted)
      ensures userId.Some? ==> GetProfile(db.rows, userId) == NotFound(UserNotFound)
    {
      if userId.None? {
        return BadRequest(UserIdRequired);
      }
      var affected := db.DeleteRow(userId.value);
      if !affected {
        return NotFound(NotDeleted);
      }
      return Ok(DeletedMessage);
    }

    /** `POST /profileBulkUpload`: save an accepted file under `uploads/` and
        enqueue one `process_csv` job for it. */
    method ProfileBulkUpload(file: Option<Upload>) returns (resp: Response)
      modifies this
      ensures !FilePresent(file) ==>
        resp == Response(400, Error(NoFileUploaded)) && saved == old(saved) && jobs == old(jobs)
      ensures FilePresent(file) && AcceptedName(sanitize(file.value.filename)) ==>
        var path := JoinPath(UploadFolder, sanitize(file.value.filename));
        resp == Response(202, Message(ProcessingStarted)) &&
        saved == old(saved) + [path] && jobs == old(jobs) + [path]
      ensures FilePresent(file) && !AcceptedName(sanitize(file.value.filename)) ==>
        resp == Response(400, Error(InvalidFormat)) && saved == old(saved) && jobs == old(jobs)
    {
      if !FilePresent(file) {
        return Response(400, Error(NoFileUploaded));
      }
      var filename := sanitize(file.value.filename);
      if EndsWith(filename, ".csv") || EndsWith(filename, ".xlsx") {
        var filepath := JoinPath(UploadFolder, filename);
        saved := saved + [filepath];
        jobs := jobs + [filepath];
        return Response(202, Message(ProcessingStarted));
      }
      return Response(400, Error(InvalidFormat));
    }
  }
}
