/** The `users` table shared by the API gateway and the user service: rows keyed
    by an auto-increment id. */
module Users {
  import opened Forms

  /** One row of `users`. `password` holds the digest, never the plaintext. */
  datatype User = User(
    firstName: string,
    middleName: Option<string>,
    lastName: string,
    email: string,
    phone: string,
    password: string,
    role: string,
    profilePicPath: Option<string>)

  /** The columns the user service selects: every column except `password`. */
  datatype Profile = Profile(
    id: int,
    firstName: string,
    middleName: Option<string>,
    lastName: string,
    email: string,
    phone: string,
    role: string,
    profilePicPath: Option<string>)

  /** The row as `SELECT id, first_name, ..., profile_pic_path` returns it. */
  function Project(id: int, u: User): Profile {
    Profile(id, u.firstName, u.middleName, u.lastName, u.email, u.phone, u.role, u.profilePicPath)
  }

  /** The projection does not depend on the stored password. */
  lemma ProjectIgnoresPassword(id: int, u: User, pw: string)
    ensures Project(id, u.(password := pw)) == Project(id, u)
  {
  }

  /** `WHERE email = e OR phone_number = p` matches some row. */
  predicate EmailOrPhoneTaken(rows: map<int, User>, email: string, phone: string) {
    exists id :: id in rows && (rows[id].email == email || rows[id].phone == phone)
  }

  /** The intended identity invariant: no two rows share an email or a phone number. */
  predicate Unique(rows: map<int, User>) {
    forall i, j :: i in rows && j in rows && i != j ==>
      rows[i].email != rows[j].email && rows[i].phone != rows[j].phone
  }

  /** The profile update's SET list: names, contacts and picture are replaced. */
  function Overwrite(u: User, first: string, middle: Option<string>, last: string,
                     email: string, phone: string, pic: Option<string>): (v: User)
    ensures v.role == u.role && v.password == u.password
    ensures v.firstName == first && v.middleName == middle && v.lastName == last
    ensures v.email == email && v.phone == phone && v.profilePicPath == pic
  {
    u.(firstName := first, middleName := middle, lastName := last,
       email := email, phone := phone, profilePicPath := pic)
  }

  /** Inserting a row whose email and phone are both unused keeps `Unique`. */
  lemma InsertKeepsUnique(rows: map<int, User>, id: int, u: User)
    requires Unique(rows) && id !in rows
    requires !EmailOrPhoneTaken(rows, u.email, u.phone)
    ensures Unique(rows[id := u])
  {
    var after := rows[id := u];
    forall i, j | i in after && j in after && i != j
      ensures after[i].email != after[j].email && after[i].phone != after[j].phone
    {
      if i == id {
        assert j in rows && !(rows[j].email == u.email || rows[j].phone == u.phone);
      } else if j == id {
        assert i in rows && !(rows[i].email == u.email || rows[i].phone == u.phone);
      }
    }
  }

  /** The profile update makes no uniqueness check: overwriting one row of a
      table that satisfies `Unique` can leave two rows with the same email. */
  lemma {:induction false} OverwriteCanBreakUnique()
    ensures exists rows: map<int, User>, id: int, email: string ::
      Unique(rows) && id in rows &&
      !Unique(rows[id := Overwrite(rows[id], "A", None, "B", email, rows[id].phone, None)])
  {
    var a := User("A", None, "B", "a@x", "1111111111", "h", "admin", None);
    var b := User("C", None, "D", "b@x", "2222222222", "h", "admin", None);
    var rows := map[1 := a, 2 := b];
    var after := rows[2 := Overwrite(rows[2], "A", None, "B", "a@x", rows[2].phone, None)];
    assert after[1].email == after[2].email;
    assert !Unique(after);
  }

  /** The `users` table: rows by id and the next AUTO_INCREMENT value. */
  class Table {
    var rows: map<int, User>
    var nextId: int

    /** Every id was handed out by the auto-increment counter. */
    ghost predicate Valid()
      reads this
    {
      0 < nextId && forall id :: id in rows ==> 0 < id < nextId
    }

    constructor ()
      ensures Valid() && rows == map[] && nextId == 1
    {
      rows := map[];
      nextId := 1;
    }

    /** `INSERT INTO users ...`: the row gets the next id, newer than every other. */
    method Insert(u: User) returns (id: int)
      requires Valid()
      modifies this
      ensures Valid()
      ensures id == old(nextId) && id !in old(rows)
      ensures forall k :: k in old(rows) ==> k < id
      ensures rows == old(rows)[id := u] && nextId == old(nextId) + 1
    {
      id := nextId;
      rows := rows[id := u];
      nextId := nextId + 1;
    }

    /** `UPDATE users SET ... WHERE id = id`; `affected` reports whether a row matched. */
    method UpdateRow(id: int, first: string, middle: Option<string>, last: string,
                     email: string, phone: string, pic: Option<string>) returns (affected: bool)
      requires Valid()
      modifies this
      ensures Valid() && nextId == old(nextId)
      ensures affected <==> id in old(rows)
      ensures rows == if affected
                      then old(rows)[id := Overwrite(old(rows)[id], first, middle, last, email, phone, pic)]
                      else old(rows)
    {
      affected := id in rows;
      if affected {
        rows := rows[id := Overwrite(rows[id], first, middle, last, email, phone, pic)];
      }
    }

    /** `DELETE FROM users WHERE id = id`; `affected` reports whether a row matched. */
    method DeleteRow(id: int) returns (affected: bool)
      requires Valid()
      modifies this
      ensures Valid() && nextId == old(nextId)
      ensures affected <==> id in old(rows)
      ensures rows == old(rows) - {id}
    {
      affected := id in rows;
      rows := rows - {id};
    }
  }
}
