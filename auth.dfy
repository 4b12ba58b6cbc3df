/** The static credential table and the login check. The password hash
    (SHA-256 hex digest in the application) is a parameter: nothing here
    depends on what it computes. */
module Auth {
  import opened Records
  import opened ClinicFilter

  datatype Role = Admin | User

  /** An account as provisioned: its plaintext password, role and clinic. */
  datatype Account = Account(password: string, role: Role, clinic: string)

  const PROVISIONED: map<string, Account> := map[
    "admin" := Account("admin123", Admin, "All"),
    "clinic1" := Account("clinic1pass", User, "Clinic 1 - Nairobi"),
    "clinic2" := Account("clinic2pass", User, "Clinic 2 - Mombasa"),
    "clinic3" := Account("clinic3pass", User, "Clinic 3 - Kisumu"),
    "clinic4" := Account("clinic4pass", User, "Clinic 4 - Nakuru"),
    "clinic5" := Account("clinic5pass", User, "Clinic 5 - Eldoret"),
    "clinic6" := Account("clinic6pass", User, "Clinic 6 - Thika"),
    "clinic7" := Account("clinic7pass", User, "Clinic 7 - Machakos")
  ]

  /** One entry of the `USERS` table: the stored hash, role and clinic. */
  datatype UserEntry = UserEntry(passwordHash: string, role: Role, clinic: string)

  /** `USERS`: every provisioned account with its password replaced by its
      hash. A plain definition; what it guarantees about logging in is
      stated by `LoginWithOwnPassword`, `LoginRejects` and
      `ProvisionedScopes`. */
  function Users(hash: string -> string): (users: map<string, UserEntry>)
    ensures users.Keys == PROVISIONED.Keys
    ensures forall u :: u in users ==>
      users[u].passwordHash == hash(PROVISIONED[u].password) &&
      users[u].role == PROVISIONED[u].role && users[u].clinic == PROVISIONED[u].clinic
  {
    map u | u in PROVISIONED :: UserEntry(hash(PROVISIONED[u].password), PROVISIONED[u].role, PROVISIONED[u].clinic)
  }

  /** What a successful login stores in the session. */
  datatype Session = Session(user: string, role: Role, clinic: string)

  /** The login button: the user name must be in the table and the hash of
      the password typed must equal the stored hash. */
  function Login(users: map<string, UserEntry>, username: string, password: string,
                 hash: string -> string): (r: Option<Session>)
    ensures r.Some? ==>
      username in users && users[username].passwordHash == hash(password) &&
      r.value == Session(username, users[username].role, users[username].clinic)
    ensures r.None? ==> username !in users || users[username].passwordHash != hash(password)
  {
    if username in users && users[username].passwordHash == hash(password)
    then Some(Session(username, users[username].role, users[username].clinic))
    else None
  }

  /** Every provisioned account can log in with its own password, and gets
      its own role and clinic. */
  lemma LoginWithOwnPassword(hash: string -> string, u: string)
    requires u in PROVISIONED
    ensures Login(Users(hash), u, PROVISIONED[u].password, hash)
         == Some(Session(u, PROVISIONED[u].role, PROVISIONED[u].clinic))
  {
  }

  /** Unknown names are rejected, and so is a password whose hash differs
      from that of the provisioned one, whatever the hash is. */
  lemma LoginRejects(hash: string -> string, u: string, password: string)
    requires u !in PROVISIONED || hash(password) != hash(PROVISIONED[u].password)
    ensures Login(Users(hash), u, password, hash) == None
  {
  }

  /** The admin is the only account scoped to "All"; every other account is
      scoped to a clinic that the stock query really filters on. */
  lemma ProvisionedScopes(u: string)
    requires u in PROVISIONED
    ensures PROVISIONED[u].role == Admin <==> PROVISIONED[u].clinic == ALL_CLINICS
    ensures PROVISIONED[u].role == User ==> Restricts(Some(PROVISIONED[u].clinic))
  {
  }

  /** A clinic user who logs in only ever sees the rows of their own clinic;
      the admin viewing "All" sees every row. */
  lemma SessionView(hash: string -> string, u: string, password: string, meds: seq<Medicine>)
    requires Login(Users(hash), u, password, hash).Some?
    ensures var s := Login(Users(hash), u, password, hash).value;
      var view := GetDf(meds, ViewFilter(s.role == Admin, s.clinic));
      (s.role == User ==> view == FilterClinic(meds, s.clinic)) &&
      (s.role == User ==> forall i :: 0 <= i < |view| ==> view[i].clinic == s.clinic) &&
      (s.role == User ==> forall m :: m in view <==> m in meds && m.clinic == s.clinic) &&
      (s.role == Admin ==> view == meds)
  {
    ProvisionedScopes(u);
    var s := Login(Users(hash), u, password, hash).value;
    FilterClinicKeepsAll(meds, s.clinic);
  }
}
