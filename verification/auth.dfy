/** The customer session and the admin flag, kept in memory and in the
    browser's local storage so that a reload restores them. */
module Auth {
  import opened Wrappers
  import opened Seqs
  import opened Types

  /** A row of the `users` table, password included. */
  datatype UserRow = UserRow(id: string, name: string, phone: string, password: string, createdAt: string)

  /** A row of the `admin_users` table. */
  datatype AdminRow = AdminRow(username: string, password: string)

  /** A local-storage value: the JSON of a user as the app writes it, or plain text. */
  datatype Stored = UserJson(user: User) | Text(text: string)

  /** The browser's local storage. */
  type Store = map<string, Stored>

  const UserKey := "relieve-user"
  const AdminKey := "relieve-admin"

  /** The session the context provides. */
  datatype Session = Session(user: Option<User>, isAdmin: bool, isLoading: bool, store: Store)

  /** The user as the application keeps it: every column but the password. */
  function Public(row: UserRow): (u: User)
    ensures u.id == row.id && u.name == row.name && u.phone == row.phone && u.createdAt == row.createdAt
  {
    User(row.id, row.name, row.phone, row.createdAt)
  }

  /** The saved user, if the user key holds one. */
  function SavedUser(store: Store): Option<User> {
    if UserKey in store && store[UserKey].UserJson? then Some(store[UserKey].user) else None
  }

  /** The saved admin flag: the admin key holds exactly the text "true". */
  predicate SavedAdmin(store: Store) {
    AdminKey in store && store[AdminKey] == Text("true")
  }

  /** The mount effect: the user and the admin flag read back from storage. */
  function Restore(store: Store): (s: Session)
    ensures s.store == store && !s.isLoading
    ensures s.user == SavedUser(store)
    ensures s.isAdmin <==> AdminKey in store && store[AdminKey] == Text("true")
  {
    Session(SavedUser(store), SavedAdmin(store), false, store)
  }

  /** A session a reload would give back unchanged. */
  predicate Persisted(s: Session) {
    s.user == SavedUser(s.store) && s.isAdmin == SavedAdmin(s.store)
  }

  lemma RestoreIsPersisted(store: Store)
    ensures Persisted(Restore(store))
  {
  }

  datatype Outcome = Outcome(session: Session, error: Option<string>)

  function PhoneIs(phone: string): UserRow -> bool {
    (row: UserRow) => row.phone == phone
  }

  /** `login`: the phone must pick out exactly one row, and its password must
      match; then the user, without the password, is kept and saved. */
  function Login(s: Session, users: seq<UserRow>, phone: string, password: string): (r: Outcome)
    ensures Count(users, PhoneIs(phone)) != 1 ==> r == Outcome(s, Some("User not found"))
    ensures r.error == Some("Invalid password") <==>
      (Count(users, PhoneIs(phone)) == 1 && SingleMatch(users, PhoneIs(phone)).value.password != password)
    ensures r.error.None? ==>
      var row := SingleMatch(users, PhoneIs(phone)).value;
      row in users && row.phone == phone && row.password == password &&
      r.session == s.(user := Some(Public(row)), store := s.store[UserKey := UserJson(Public(row))])
    ensures r.error.Some? ==> r.session == s
  {
    match SingleMatch(users, PhoneIs(phone))
    case None => Outcome(s, Some("User not found"))
    case Some(row) =>
      if row.password != password then Outcome(s, Some("Invalid password"))
      else
        var u := Public(row);
        Outcome(s.(user := Some(u), store := s.store[UserKey := UserJson(u)]), None)
  }

  /** The row `register` asks the backend to insert. */
  datatype NewUser = NewUser(name: string, phone: string, password: string)

  datatype RegisterOutcome = RegisterOutcome(session: Session, error: Option<string>, inserted: Option<NewUser>)

  /** `register` as written: a phone already held by exactly one row is
      refused before any insert; otherwise the insert is sent, and `answer` is
      the backend's reply (the new row, or an error message). */
  function RegisterAsWritten(s: Session, users: seq<UserRow>, name: string, phone: string, password: string,
                    answer: Result<UserRow, string>): (r: RegisterOutcome)
    ensures Count(users, PhoneIs(phone)) == 1 ==>
      r == RegisterOutcome(s, Some("Phone number already registered"), None)
    ensures Count(users, PhoneIs(phone)) != 1 ==> r.inserted == Some(NewUser(name, phone, password))
    ensures Count(users, PhoneIs(phone)) != 1 && answer.Err? ==> r.session == s && r.error == Some(answer.error)
    ensures Count(users, PhoneIs(phone)) != 1 && answer.Ok? ==>
      r.error.None? &&
      r.session == s.(user := Some(Public(answer.value)), store := s.store[UserKey := UserJson(Public(answer.value))])
  {
    if SingleMatch(users, PhoneIs(phone)).Some? then
      RegisterOutcome(s, Some("Phone number already registered"), None)
    else
      var req := NewUser(name, phone, password);
      match answer
      case Err(msg) => RegisterOutcome(s, Some(msg), Some(req))
      case Ok(row) =>
        var u := Public(row);
        RegisterOutcome(s.(user := Some(u), store := s.store[UserKey := UserJson(u)]), None, Some(req))
  }

  /** The existence check goes through `.single()`, so a phone that already
      appears on two rows is not seen as registered and a third insert is sent. */
  lemma DuplicatePhoneIsNotSeen(s: Session, a: UserRow, b: UserRow, name: string, password: string,
                                answer: Result<UserRow, string>)
    requires a.phone == b.phone
    ensures RegisterAsWritten(s, [a, b], name, a.phone, password, answer).inserted.Some?
    ensures Register(s, [a, b], name, a.phone, password, answer).inserted.None?
  {
    var p := PhoneIs(a.phone);
    assert p(a) && p(b);
    assert [a, b][1..] == [b];
    assert [b][1..] == [];
    assert Count([b], p) == 1 + Count([], p);
    assert Count([a, b], p) == 2;
  }

  /** `register` as the existence check and its message intend: a phone held
      by any row is refused before any insert; otherwise as written. */
  function Register(s: Session, users: seq<UserRow>, name: string, phone: string, password: string,
                    answer: Result<UserRow, string>): (r: RegisterOutcome)
    ensures Count(users, PhoneIs(phone)) > 0 ==>
      r == RegisterOutcome(s, Some("Phone number already registered"), None)
    ensures Count(users, PhoneIs(phone)) == 0 ==> r.inserted == Some(NewUser(name, phone, password))
    ensures Count(users, PhoneIs(phone)) == 0 && answer.Err? ==> r.session == s && r.error == Some(answer.error)
    ensures Count(users, PhoneIs(phone)) == 0 && answer.Ok? ==>
      r.error.None? &&
      r.session == s.(user := Some(Public(answer.value)), store := s.store[UserKey := UserJson(Public(answer.value))])
  {
    if Count(users, PhoneIs(phone)) > 0 then
      RegisterOutcome(s, Some("Phone number already registered"), None)
    else
      RegisterAsWritten(s, users, name, phone, password, answer)
  }

  /** The corrected check differs from the written one only where a phone is
      already duplicated: with at most one row per phone they agree. */
  lemma RegisterAgreesOnUniquePhones(s: Session, users: seq<UserRow>, name: string, phone: string,
                                     password: string, answer: Result<UserRow, string>)
    requires Count(users, PhoneIs(phone)) <= 1
    ensures Register(s, users, name, phone, password, answer) == RegisterAsWritten(s, users, name, phone, password, answer)
  {
  }

  /** The corrected registration never adds a second row for a phone: whenever
      it inserts, the phone then belongs to exactly one row. */
  lemma RegisterKeepsPhonesUnique(s: Session, users: seq<UserRow>, name: string, phone: string,
                                  password: string, answer: Result<UserRow, string>, id: string, createdAt: string)
    requires Register(s, users, name, phone, password, answer).inserted.Some?
    ensures Count(users + [UserRow(id, name, phone, password, createdAt)], PhoneIs(phone)) == 1
  {
    CountAppend(users, UserRow(id, name, phone, password, createdAt), PhoneIs(phone));
  }

  /** `logout`: the user is forgotten in memory and in storage; the admin flag stays. */
  function Logout(s: Session): (r: Session)
    ensures r.user.None? && UserKey !in r.store
    ensures r.isAdmin == s.isAdmin
    ensures forall k :: k in s.store && k != UserKey ==> k in r.store && r.store[k] == s.store[k]
  {
    Session(None, s.isAdmin, s.isLoading, s.store - {UserKey})
  }

  function AdminMatches(username: string, password: string): AdminRow -> bool {
    (row: AdminRow) => row.username == username && row.password == password
  }

  /** `adminLogin`: exactly one admin row must match both the username and the
      password; then the flag is set and saved as the text "true". */
  function AdminLogin(s: Session, admins: seq<AdminRow>, username: string, password: string): (r: Outcome)
    ensures r.error.None? <==> Count(admins, AdminMatches(username, password)) == 1
    ensures r.error.Some? ==> r == Outcome(s, Some("Invalid admin credentials"))
    ensures r.error.None? ==> r.session == s.(isAdmin := true, store := s.store[AdminKey := Text("true")])
  {
    if SingleMatch(admins, AdminMatches(username, password)).Some? then
      Outcome(s.(isAdmin := true, store := s.store[AdminKey := Text("true")]), None)
    else
      Outcome(s, Some("Invalid admin credentials"))
  }

  /** `adminLogout`: only the admin flag and its key are cleared. */
  function AdminLogout(s: Session): (r: Session)
    ensures !r.isAdmin && AdminKey !in r.store
    ensures r.user == s.user
    ensures forall k :: k in s.store && k != AdminKey ==> k in r.store && r.store[k] == s.store[k]
  {
    Session(s.user, false, s.isLoading, s.store - {AdminKey})
  }

  /** Every operation keeps memory and storage in step: after any of them a
      reload restores the same user and the same admin flag. */
  lemma OperationsPersist(s: Session, users: seq<UserRow>, admins: seq<AdminRow>,
                          name: string, phone: string, password: string, answer: Result<UserRow, string>)
    requires Persisted(s)
    ensures Persisted(Login(s, users, phone, password).session)
    ensures Persisted(Register(s, users, name, phone, password, answer).session)
    ensures Persisted(RegisterAsWritten(s, users, name, phone, password, answer).session)
    ensures Persisted(Logout(s))
    ensures Persisted(AdminLogin(s, admins, name, password).session)
    ensures Persisted(AdminLogout(s))
  {
    assert UserKey != AdminKey;
  }

  /** Logging out and back in as the same customer leaves the admin flag as it was. */
  lemma CustomerLoginKeepsAdminFlag(s: Session, users: seq<UserRow>, phone: string, password: string)
    ensures Login(Logout(s), users, phone, password).session.isAdmin == s.isAdmin
  {
  }
}
