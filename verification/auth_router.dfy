/** The store effects of the account routes (`routes/auth.js`): registering
    an account (with its profile for a patient), the credential gate of
    login, and editing one's own name and email. Token signing is left out;
    the password check is a parameter. */
module AuthRouter {
  import opened Common
  import opened Models
  import opened Store

  /** The registration body. */
  datatype Registration = Registration(name: Option<string>, email: Option<string>, password: Option<string>, role: Option<string>)

  /** Some account already has this email. */
  predicate EmailTaken(s: State, email: string) {
    exists u :: u in s.users && s.users[u].email == email
  }

  /** `register`: an email already registered is a 400. Otherwise the account
      is saved with role `role || "patient"` (a failed validation is a 500
      and saves nothing); then, only when the body said "patient" outright,
      a profile with the account's name and email is saved and its id
      recorded on the account. The reply is the new account's id. */
  function RegisterStep(s: State, b: Registration): Step<UserId> {
    if b.email.Some? && EmailTaken(s, b.email.value) then Step(s, BadRequest(EmailRegistered, false))
    else match NewUser(b.name, b.email, b.password, OrElse(b.role, "patient"))
      case None => Step(s, ServerError)
      case Some(user) =>
        var uid := s.nextId;
        if b.role == Some("patient") then
          var pid := uid + 1;
          var profile := Patient(pid, Some(OrElse(b.name, "")), Some(OrElse(b.email, "")), None, None, None, None, None);
          Step(s.(users := s.users[uid := user.(profileId := Some(pid))],
                  patients := s.patients[uid := profile],
                  nextId := uid + 2), Ok(uid))
        else
          Step(s.(users := s.users[uid := user], nextId := uid + 1), Ok(uid))
  }

  method Register(db: Db, b: Registration) returns (r: Reply<UserId>)
    modifies db
    ensures Step(db.Snapshot(), r) == RegisterStep(old(db.Snapshot()), b)
  {
    if b.email.Some? && EmailTaken(db.Snapshot(), b.email.value) {
      return BadRequest(EmailRegistered, false);
    }
    var made := NewUser(b.name, b.email, b.password, OrElse(b.role, "patient"));
    if made.None? {
      return ServerError;
    }
    var user := made.value;
    var uid := db.nextId;
    db.users := db.users[uid := user];
    db.nextId := uid + 1;
    if b.role == Some("patient") {
      var pid := db.nextId;
      db.patients := db.patients[uid := Patient(pid, Some(OrElse(b.name, "")), Some(OrElse(b.email, "")), None, None, None, None, None)];
      db.nextId := pid + 1;
      user := user.(profileId := Some(pid));
      db.users := db.users[uid := user];
    }
    r := Ok(uid);
  }

  /** An email already registered is refused and nothing is created; a new
      account gets role patient when none was given, yet a profile only when
      "patient" was given explicitly, and that profile copies the account's
      name and email and is what the account's profile id names. */
  lemma RegisterEffect(s: State, b: Registration)
    requires Consistent(s)
    ensures var r := RegisterStep(s, b);
      && (b.email.Some? && EmailTaken(s, b.email.value) ==> r == Step(s, BadRequest(EmailRegistered, false)))
      && (!r.reply.Ok? ==> r.state == s)
      && (r.reply.Ok? ==>
            var uid := r.reply.value;
            && uid !in s.users && uid in r.state.users
            && b.name.Some? && b.email.Some? && b.password.Some?
            && r.state.users[uid].name == b.name.value && r.state.users[uid].email == b.email.value
            && r.state.users[uid].role == (if b.role == Some("doctor") then DoctorRole else PatientRole)
            && (forall u :: u in s.users ==> u in r.state.users && r.state.users[u] == s.users[u])
            && r.state.users.Keys == s.users.Keys + {uid}
            && r.state.appointments == s.appointments && r.state.doctors == s.doctors
            && (b.role != Some("patient") ==> r.state.patients == s.patients && r.state.users[uid].profileId.None?)
            && (b.role == Some("patient") ==>
                  && uid in r.state.patients
                  && r.state.patients == s.patients[uid := r.state.patients[uid]]
                  && r.state.patients[uid].name == b.name && r.state.patients[uid].email == b.email
                  && r.state.users[uid].profileId == Some(r.state.patients[uid].id)))
  {
    var r := RegisterStep(s, b);
    if r.reply.Ok? {
      assert s.nextId !in s.users;
    }
  }

  /** Registering keeps emails unique and every id below the counter. */
  lemma RegisterKeepsConsistent(s: State, b: Registration)
    requires Consistent(s)
    ensures Consistent(RegisterStep(s, b).state)
  {
    var r := RegisterStep(s, b);
    if r.reply.Ok? {
      var uid := r.reply.value;
      forall u, v | u in r.state.users && v in r.state.users && u != v
        ensures r.state.users[u].email != r.state.users[v].email
      {
        if u == uid {
          assert v in s.users;
        } else if v == uid {
          assert u in s.users;
        }
      }
    }
  }

  /** `login`'s gate, with `matches(stored, given)` standing for the password
      check: the account with that email, and its id when the password
      matches. An unknown email and a wrong password get the same 400. */
  method Login(s: State, email: string, password: string, matches: (string, string) -> bool) returns (r: Reply<UserId>)
    ensures r.Ok? || r == BadRequest(InvalidCredentials, false)
    ensures r.Ok? ==> r.value in s.users && s.users[r.value].email == email && matches(s.users[r.value].password, password)
    ensures !EmailTaken(s, email) ==> r == BadRequest(InvalidCredentials, false)
    ensures Consistent(s) ==> forall u :: u in s.users && s.users[u].email == email ==>
      (r.Ok? <==> matches(s.users[u].password, password))
  {
    if !EmailTaken(s, email) {
      return BadRequest(InvalidCredentials, false);
    }
    var u :| u in s.users && s.users[u].email == email;
    if !matches(s.users[u].password, password) {
      return BadRequest(InvalidCredentials, false);
    }
    r := Ok(u);
  }

  /** `PUT /me`: name and email are required; an email held by another
      account is a 400, the caller's own is fine; a missing account is a
      404. The account's name and email are saved, and a patient's profile,
      if it exists, gets the same name and email. */
  function UpdateMeStep(s: State, caller: UserId, name: Option<string>, email: Option<string>): Step<User> {
    if !Truthy(name) || !Truthy(email) then Step(s, BadRequest(NameEmailRequired, false))
    else if exists u :: u in s.users && u != caller && s.users[u].email == email.value then Step(s, BadRequest(EmailInUse, false))
    else if caller !in s.users then Step(s, NotFound(UserMissing, false))
    else
      var user := s.users[caller].(name := name.value, email := email.value);
      var s1 := s.(users := s.users[caller := user]);
      if user.role == PatientRole && caller in s.patients then
        Step(s1.(patients := s.patients[caller := s.patients[caller].(name := name, email := email)]), Ok(user))
      else Step(s1, Ok(user))
  }

  method UpdateMe(db: Db, caller: UserId, name: Option<string>, email: Option<string>) returns (r: Reply<User>)
    modifies db
    ensures Step(db.Snapshot(), r) == UpdateMeStep(old(db.Snapshot()), caller, name, email)
  {
    if !Truthy(name) || !Truthy(email) {
      return BadRequest(NameEmailRequired, false);
    }
    if exists u :: u in db.users && u != caller && db.users[u].email == email.value {
      return BadRequest(EmailInUse, false);
    }
    if caller !in db.users {
      return NotFound(UserMissing, false);
    }
    var user := db.users[caller];
    user := user.(name := name.value, email := email.value);
    db.users := db.users[caller := user];
    if user.role == PatientRole && caller in db.patients {
      var patient := db.patients[caller];
      patient := patient.(name := name, email := email);
      db.patients := db.patients[caller := patient];
    }
    r := Ok(user);
  }

  /** Keeping one's own email is allowed and taking another account's is
      not; a successful edit changes only the caller's name and email, and
      the profile's copy of them for a patient with a profile. */
  lemma UpdateMeEffect(s: State, caller: UserId, name: Option<string>, email: Option<string>)
    ensures var r := UpdateMeStep(s, caller, name, email);
      && (!r.reply.Ok? ==> r.state == s)
      && ((&& Truthy(name) && Truthy(email) && caller in s.users && s.users[caller].email == email.value
           && (forall u :: u in s.users && u != caller ==> s.users[u].email != s.users[caller].email)) ==> r.reply.Ok?)
      && (Truthy(name) && Truthy(email) && (exists u :: u in s.users && u != caller && s.users[u].email == email.value)
          ==> r.reply == BadRequest(EmailInUse, false))
      && (r.reply.Ok? ==>
            && r.state.users == s.users[caller := s.users[caller].(name := name.value, email := email.value)]
            && r.reply.value == r.state.users[caller]
            && r.state.appointments == s.appointments && r.state.doctors == s.doctors
            && r.state.patients.Keys == s.patients.Keys
            && (forall u :: u in s.patients && u != caller ==> r.state.patients[u] == s.patients[u])
            && (caller in s.patients && s.users[caller].role == PatientRole ==>
                  r.state.patients[caller] == s.patients[caller].(name := name, email := email))
            && (caller in s.patients && s.users[caller].role == DoctorRole ==>
                  r.state.patients[caller] == s.patients[caller]))
  {
  }

  /** Editing one's own details keeps emails unique. */
  lemma UpdateMeKeepsConsistent(s: State, caller: UserId, name: Option<string>, email: Option<string>)
    requires Consistent(s)
    ensures Consistent(UpdateMeStep(s, caller, name, email).state)
  {
    var r := UpdateMeStep(s, caller, name, email);
    if r.reply.Ok? {
      forall u, v | u in r.state.users && v in r.state.users && u != v
        ensures r.state.users[u].email != r.state.users[v].email
      {
        if u == caller {
          assert s.users[v].email != email.value;
        } else if v == caller {
          assert s.users[u].email != email.value;
        }
      }
    }
  }
}
