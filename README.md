# Secure API gateway: a Dafny model of the request handlers

This project models the decision logic of the two Flask services of the
Secure-API-Gateway backend, run against an abstract `users` table:

- the **API gateway** (`api_gateway/app.py`): registration (`POST /create_user`),
  login (`POST /login`) and the missing-file guard in front of the bulk upload
  (`POST /upload`);
- the **user service** (`user_service/app.py`): profile read (`/profile`),
  paginated listing (`/profiles`), profile update (`/profileUpdate`), profile
  delete (`/profileDelete`) and bulk-upload acceptance (`/profileBulkUpload`).

The `users` table is the class `Users.Table`: a `map<int, User>` from id to row
and the next AUTO_INCREMENT value. Its invariant `Valid()` says every id was
handed out by that counter. The gateway process is the class
`ApiGateway.Gateway`. It holds the table and three uninterpreted collaborators
as function-valued constants: the MD5 digest `hash`, the JWT issuer `issue` and
werkzeug's `secure_filename` `sanitize`. It also keeps the sequence of
object-store keys it has written. The user service is the class
`UserService.ProfileService`. It holds the same table, its sanitiser, the files
it has saved and the `process_csv` jobs it has enqueued. Handlers that change
the table or the queue are methods of these classes. Handlers that only read
(login, profile read, listing) are functions of the table's contents.

Each handler answers a `Responses.Response`: an HTTP status and one of the JSON
body shapes the source produces. The shapes are the bare `{"message"}`, the
`{"status", "status_code", "message"}` envelope, the `{"data"}` envelope,
login's `{"msg"}` and `{"access_token"}`, and the upload's `{"error"}`. An
unhandled Python exception becomes `Crash(fault)` with status 500. The
fail-fast validation chains are lists of `Validation.Check`s. `FirstFailure`
reports the message of the first check that fails.

Modules, one per file: `Forms` (optional request fields and Python
truthiness), `Users` (rows, projection, the table class), `Responses`,
`Validation`, `Ordering` (descending id order and LIMIT/OFFSET windows),
`ApiGateway`, `UserService`.

### Behaviour of the code that the model keeps

The model keeps these behaviours of the code, including the ones that look unintended:

- The password is hashed before any check. A request without a password
  therefore crashes (500) instead of getting 400 "Password is required". That
  message appears only for an empty-string password.
- The two login failures share status 401 but carry different messages:
  "Invalid User Credentials!" for an unknown email and "Invalid credentials"
  for a wrong password. So a caller can tell which emails are registered; one
  message for both failures would not reveal that.
- Registration succeeds only with a profile picture. Without one,
  `unique_filename` is never bound, and the INSERT crashes after the duplicate
  check has passed.
- The picture is written to the object store before the duplicate check, so a
  rejected duplicate still leaves an object behind.
- The stored `profile_pic_path` is the object key `profile_pics/<hex>_<name>`,
  not the URL. A missing middle name is rendered by the f-string INSERT as the
  text "None"; the parameterised UPDATE stores NULL instead.
- Roles are compared exactly: `Sub-admin`, `admin`, `user`.
- The update is refused when the stored role of the target row is exactly
  `user`, whoever the caller is. It checks `user_id` only after names, email
  and phone, and it makes no email/phone uniqueness check, so it can break the
  uniqueness the registration keeps (`Users.OverwriteCanBreakUnique`).
- The model counts an existing row as affected by the update. Under that
  reading the update's "User not Updated Successfully" 404 is never returned,
  because the row was found just before; `ProfileUpdate`'s contract shows this.
  The code itself can return it: without the found-rows client flag, MySQL
  counts only rows whose values changed, so resubmitting a row's stored
  values gives that 404.

## Model

| member | source | states |
|---|---|---|
| `Validation.FirstFailure` | api_gateway/app.py:63-76 | The result is None exactly when every check passes; otherwise it is the message of a check that fails while every earlier check passes |
| `Validation.FirstFailureAt` | api_gateway/app.py:63-76 | If check k is the first to fail, its message is the one reported |
| `Validation.FirstFailureAppend` | user_service/app.py:53-60 | A chain made of two chains reports the first chain's failure if it has one, and otherwise the second chain's |
| `Validation.ContactPrecedence` | user_service/app.py:53-58 | Names are checked before email, and email before a phone number of exactly 10 characters; when all three pass, what follows decides |
| `ApiGateway.RegistrationPrecedence` | api_gateway/app.py:63-76 | The 400 message is that of the first failure among names, email, phone, password and role in {Sub-admin, admin, user}; the chain passes exactly when all five hold |
| `ApiGateway.LookupByEmail` | api_gateway/app.py:127-131 | None exactly when no row holds the email; otherwise a row holding it, the one with the smallest id |
| `ApiGateway.Login` | api_gateway/app.py:118-136 | A missing email gives 400 before a missing password does; an unknown email gives 401 "Invalid User Credentials!"; a 200 carries the token issued for the email and needs a row with that email whose digest is H(password); any other 401 is "Invalid credentials" and has a matching row with another digest |
| `ApiGateway.LoginSucceedsIffDigestMatches` | api_gateway/app.py:133-136 | When at most one row holds the email, a token is issued exactly when that row stores H(password) |
| `ApiGateway.LoginRevealsUnknownEmail` | api_gateway/app.py:130-136 | An unknown email and a wrong password both give 401, with different messages |
| `ApiGateway.LoginAfterRegistration` | api_gateway/app.py:99-135 | After a row with an unused email and H(password) is inserted, logging in with that email and password issues a token for the email |
| `ApiGateway.Gateway.CreateCustomer` | api_gateway/app.py:50-103 | A missing password crashes before any check. Otherwise the first failing check gives 400 and nothing changes. A picture is stored before the duplicate check. A taken email or phone gives 400 and leaves the table unchanged. Without a picture the insert crashes. Otherwise exactly one row is added under the next id, holding H(password) and the object key, with 201 and body code 200. "Password is required" means an empty password. Uniqueness of email and phone is preserved. The new user can log in |
| `ApiGateway.Gateway.UploadCsv` | api_gateway/app.py:233-253 | Without a file it gives 400 and saves or enqueues nothing. Otherwise it relays the user service's answer unchanged: 202 with "File uploaded. Processing started." when the sanitised name is accepted, with exactly one file saved and one job added for its path, and 400 "Invalid file format" with nothing saved or enqueued otherwise |
| `Users.ProjectIgnoresPassword` | user_service/app.py:24 | The selected columns do not depend on the stored password |
| `Users.InsertKeepsUnique` | api_gateway/app.py:94-99 | Inserting a row whose email and phone are both unused keeps every email and phone unique |
| `Users.OverwriteCanBreakUnique` | user_service/app.py:71-72 | There is a table with unique emails in which one update leaves two rows with the same email |
| `Users.Overwrite` | user_service/app.py:72 | The update keeps role and password and sets first, middle and last name, email, phone and picture path to the submitted values |
| `Users.Table.Insert` | api_gateway/app.py:99-100 | The row is added under the next id, which is larger than every existing id; nothing else changes |
| `Users.Table.UpdateRow` | user_service/app.py:72-74 | A row is affected exactly when the id exists; only that row changes |
| `Users.Table.DeleteRow` | user_service/app.py:87-89 | A row is affected exactly when the id exists; exactly that id is removed |
| `Ordering.DescendingIds` | user_service/app.py:37 | `ORDER BY id DESC`: every id exactly once, strictly descending |
| `Ordering.DescendingIdsUnique` | user_service/app.py:37 | Any strictly descending listing of the ids equals `DescendingIds` |
| `Ordering.GreatestListedFirst` | user_service/app.py:37 | The largest id is listed first |
| `Ordering.Window` | user_service/app.py:37 | `LIMIT size OFFSET offset`: at most size ids, the i-th being the listing's (offset+i)-th, and as many as remain |
| `Ordering.WindowDescending` | user_service/app.py:37 | A window of a descending listing is descending |
| `Ordering.ConsecutivePagesOrdered` | user_service/app.py:35-37 | With a fixed page size, every id on one page is larger than every id on the next page |
| `UserService.GetProfile` | user_service/app.py:16-28 | A missing user_id gives 400 and an unknown id gives 404; 200 exactly when the row exists, with that row's columns other than the password |
| `UserService.GetProfileIgnoresPasswords` | user_service/app.py:24-28 | Tables that differ only in passwords give the same profile answer |
| `UserService.ListProfiles` | user_service/app.py:31-39 | page_size defaults to 10 and page to 1, and offset is (page-1)*page_size. A negative limit or offset gives 500. Otherwise 200 with at most page_size rows: the slice at offset of all ids in descending order, as many as remain |
| `UserService.ListingDescending` | user_service/app.py:37-39 | Every listed page has strictly descending ids |
| `UserService.SecondPage` | user_service/app.py:33-39 | With at least 20 rows, page 2 of size 10 holds the 11th to 20th largest ids |
| `UserService.NewestListedFirst` | user_service/app.py:34-37 | With the default page and a positive page size, the newest row (largest id) comes first |
| `UserService.ListProfilesIgnoresPasswords` | user_service/app.py:37-39 | Tables that differ only in passwords give the same listing |
| `UserService.UpdatePrecedence` | user_service/app.py:53-60 | The update reports names, then email, then phone, and only then a missing user_id; it passes exactly when all four hold |
| `UserService.AcceptedNameIffSuffix` | user_service/app.py:102 | A name is accepted exactly when it is some stem followed by `.csv` or `.xlsx` |
| `UserService.AcceptedNameExamples` | user_service/app.py:102 | data.csv and data.xlsx are accepted; data.txt and data.CSV are not, because the check is case-sensitive |
| `UserService.ProfileService.ProfileUpdate` | user_service/app.py:42-76 | The first failing check gives 400 with the table unchanged. A missing row gives 404. A target whose stored role is "user" gives 400 "not authorized" with the table unchanged. Otherwise 200: only that row's names, email, phone and picture path change, the path becomes the submitted value even when absent, and role and password stay |
| `UserService.ProfileService.ProfileDelete` | user_service/app.py:79-91 | A missing user_id gives 400 with no change. Otherwise exactly that id is removed: 200 if it existed, else 404. A later profile read gives 404 |
| `UserService.ProfileService.ProfileBulkUpload` | user_service/app.py:94-111 | No file gives 400 with nothing saved or enqueued. An accepted sanitised name is saved at uploads/<name>, exactly one job is enqueued for that path, and the answer is 202. Any other name gives 400 "Invalid file format" with nothing saved or enqueued |

## Left out

- JWT issuance and verification (`@jwt_required`, expiry, signature): the token is the opaque value `issue(email)`. The protected routes' token check is not modelled.
- The proxy routes of the gateway (api_gateway/app.py:138-231). They forward over HTTP with `requests` and relay status and body. Only the upload route's own missing-file guard is modelled. An absent `page_size`/`page` is forwarded as the text "None"; that is not modelled.
- MD5 hashing, `secure_filename` and `uuid4`: uninterpreted function constants, or a parameter (`hex`) for the random identifier.
- Gateway.CreateCustomer: "stores a digest, never the plaintext" is stated as `password == hash(plaintext)`. Whether `hash` differs from the identity is outside the model.
- The S3 upload and the URL built from the bucket and region (api_gateway/app.py:83-92). Only the object key written is recorded. A failing upload is not modelled.
- The Celery worker (`user_service/tasks.py`, `api_gateway/tasks.py`): file reading, printing and sleeping. The model records the enqueued job path. The file contents saved under `uploads/` are not modelled.
- `user_service/db.py` (connection settings), `data_service/app.py` (a constant answer), and connection opening, closing and leaks.
- `int()` parse failures of `page_size` and `page`, and a non-JSON login or update body.
- ApiGateway.LookupByEmail: when several rows share an email, `fetchone()` is taken to return the one with the smallest id. MySQL promises no order without `ORDER BY`.
- MySQL comparison semantics: case-insensitive collation, the coercion of a text `user_id` to a number, and a JSON `user_id` of 0 counting as missing. The model compares strings exactly and takes `user_id` as an optional integer.
- Users.Table.UpdateRow: the affected-row count is modelled as "a row with that id existed", not as MySQL's changed-rows count. The model therefore does not capture the 404 "User not Updated Successfully" that the code returns when an update resubmits a row's stored values.
- JSON fields that are not strings: every request field is modelled as an optional string. A numeric `phone_number` makes `len()` raise in the update (user_service/app.py:57), and a numeric login password makes `.encode` raise (api_gateway/app.py:133); those 500s are not modelled.
- The unparameterised INSERT: a value containing a quote would change or break the statement. The insert is modelled by its intended meaning.
- The non-transactional read-then-write in the profile update, and any other concurrency.
