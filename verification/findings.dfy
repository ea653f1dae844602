/** Places where the account and profile code does not do what it evidently
    means to, modelled as written; the rest of the model uses the corrected
    behaviour (`AuthRouter.RegisterStep`, `AuthRouter.Login`,
    `PatientsRouter.UpsertStep`, `PatientController.CreateStep`). */
module Findings {
  import opened Common
  import opened Models
  import opened Store
  import opened AuthRouter
  import opened SignUp
  import PatientsRouter
  import PatientController

  // ------------------------------------------- a new profile never saves

  /** What a new Patient document holds of the fields it is built from.
      The schema's identity path is `clerkId`; the code passes `user`,
      which is no path of the schema and is dropped, and never passes
      `clerkId`. */
  datatype PatientDoc = PatientDoc(clerkId: Option<string>, name: Option<string>, email: Option<string>)

  /** `new Patient({ user, name, email })`. */
  function NewPatientDoc(user: UserId, name: string, email: string): PatientDoc {
    PatientDoc(None, Some(name), Some(email))
  }

  /** The schema's validation: `clerkId` is required. */
  predicate PatientDocValid(d: PatientDoc) {
    d.clerkId.Some? && d.clerkId.value != ""
  }

  /** `register` as written: the account is saved, then the profile's save
      fails validation and the catch answers 500, leaving the account
      without a profile behind. A document that passed validation would go
      on as the corrected route does. */
  function RegisterStepAsWritten(s: State, b: Registration): Step<UserId> {
    if b.email.Some? && EmailTaken(s, b.email.value) then Step(s, BadRequest(EmailRegistered, false))
    else match NewUser(b.name, b.email, b.password, OrElse(b.role, "patient"))
      case None => Step(s, ServerError)
      case Some(user) =>
        var uid := s.nextId;
        var s1 := s.(users := s.users[uid := user], nextId := uid + 1);
        if b.role == Some("patient") then
          var doc := NewPatientDoc(uid, OrElse(b.name, ""), OrElse(b.email, ""));
          if PatientDocValid(doc) then RegisterStep(s, b) else Step(s1, ServerError)
        else Step(s1, Ok(uid))
  }

  /** Every registration that asks for a patient and would succeed gets a
      500 instead: the account is stored without a profile id and no profile
      is made, and a second attempt with the same email is then refused as
      already registered. */
  lemma PatientRegistrationFailsAsWritten(s: State, b: Registration)
    requires Consistent(s)
    requires b.role == Some("patient") && RegisterStep(s, b).reply.Ok?
    ensures var r := RegisterStepAsWritten(s, b);
      && r.reply == ServerError
      && s.nextId in r.state.users && r.state.users[s.nextId].profileId.None?
      && r.state.patients == s.patients
      && RegisterStepAsWritten(r.state, b) == Step(r.state, BadRequest(EmailRegistered, false))
  {
    RegisterEffect(s, b);
    var r := RegisterStepAsWritten(s, b);
    assert r.state.users[s.nextId].email == b.email.value;
  }

  /** The sign-up page always asks for a patient, so every sign-up with a
      new email meets this. */
  lemma EverySignUpFailsAsWritten(s: State, f: SignUpForm)
    requires Consistent(s)
    requires Submit(f).Sends? && !EmailTaken(s, f.email)
    ensures RegisterStepAsWritten(s, Submit(f).body).reply == ServerError
    ensures RegisterStep(s, Submit(f).body).reply.Ok?
  {
    SignUpCreatesProfile(s, f);
    PatientRegistrationFailsAsWritten(s, Submit(f).body);
  }

  // ------------------------------------------------- login never succeeds

  /** `login` as written: `user.comparePassword` is not defined on the User
      model, so calling it throws and the catch answers 500. */
  function LoginAsWritten(s: State, email: string, password: string): (r: Reply<UserId>)
  {
    if !EmailTaken(s, email) then BadRequest(InvalidCredentials, false) else ServerError
  }

  /** Nobody can log in: a registered email gets a 500, whatever the
      password, while the intended gate lets the right password through. */
  lemma LoginNeverSucceedsAsWritten(s: State, email: string, password: string)
    ensures !LoginAsWritten(s, email, password).Ok?
    ensures EmailTaken(s, email) ==> LoginAsWritten(s, email, password) == ServerError
    ensures !EmailTaken(s, email) ==> LoginAsWritten(s, email, password) == BadRequest(InvalidCredentials, false)
  {
  }

  // ----------------------------------------- the profile forms never create

  /** `POST /api/patients` as written: for a caller without a profile the
      new document lacks `clerkId`, so its save fails validation and the
      catch answers 500 before anything is written. An existing profile is
      taken to pass validation and is overwritten as the corrected route
      does. */
  function UpsertStepAsWritten(s: State, caller: UserId, f: ProfileForm): Step<Patient> {
    if PatientsRouter.Validate(f).Some? || caller in s.patients then PatientsRouter.UpsertStep(s, caller, f)
    else if PatientDocValid(NewPatientDoc(caller, OrElse(f.name, ""), OrElse(f.email, ""))) then PatientsRouter.UpsertStep(s, caller, f)
    else Step(s, ServerError)
  }

  /** A caller with an account and no profile who sends a form the route
      accepts gets a 500 and still has no profile, so `GET /me` stays a 404;
      the corrected route saves the profile and answers with it. */
  lemma NewProfileUpsertFailsAsWritten(s: State, caller: UserId, f: ProfileForm)
    requires PatientsRouter.Validate(f).None? && caller !in s.patients && caller in s.users
    ensures UpsertStepAsWritten(s, caller, f) == Step(s, ServerError)
    ensures PatientsRouter.GetMe(UpsertStepAsWritten(s, caller, f).state, caller).NotFound?
    ensures PatientsRouter.UpsertStep(s, caller, f).reply == Ok(PatientsRouter.Overwritten(s.nextId, f))
  {
    PatientsRouter.UpsertEffect(s, caller, f);
  }

  /** `createPatient` as written: the same missing `clerkId` fails every
      save of a new profile with a 500 and nothing written. */
  function CreateStepAsWritten(s: State, caller: UserId, f: ProfileForm): Step<Patient> {
    if caller in s.patients then PatientController.CreateStep(s, caller, f)
    else if PatientDocValid(NewPatientDoc(caller, OrElse(f.name, ""), OrElse(f.email, ""))) then PatientController.CreateStep(s, caller, f)
    else Step(s, ServerError)
  }

  /** Whatever the body, a caller without a profile gets a 500 and still has
      none, while the corrected controller creates one for every body whose
      date parses and whose gender is in the enum. */
  lemma NewProfileCreateFailsAsWritten(s: State, caller: UserId, f: ProfileForm)
    requires Consistent(s) && caller !in s.patients
    ensures CreateStepAsWritten(s, caller, f) == Step(s, ServerError)
    ensures PatientController.GetPatient(CreateStepAsWritten(s, caller, f).state, caller).NotFound?
    ensures !f.dob.Unparseable? && GenderAccepted(f.gender) ==> PatientController.CreateStep(s, caller, f).reply.Ok?
  {
    PatientController.CreateNewProfile(s, caller, f);
  }
}
