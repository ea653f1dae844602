/** The mounted patient-profile routes (`routes/patients.js`): the checks on
    a submitted profile form, the upsert that overwrites the caller's
    profile, and the lookup of the caller's own profile. */
module PatientsRouter {
  import opened Common
  import opened Models
  import opened JsStrings
  import opened Store

  /** `/^\d{10}$/`: exactly ten ASCII digits (without the `m` flag, `$`
      matches only at the very end). */
  predicate TenDigits(s: string) {
    |s| == 10 && forall i :: 0 <= i < |s| ==> IsDigit(s[i])
  }

  /** The non-empty entries of the route's blood-group and gender lists;
      the empty string and `null` on those lists are falsy and never reach
      the membership test. */
  const BloodGroups: seq<string> := ["A+", "A-", "B+", "B-", "AB+", "AB-", "O+", "O-"]
  const Genders: seq<string> := ["male", "female", "other"]

  /** The first check a form fails, in the route's order, or none. */
  function Validate(f: ProfileForm): Option<Why> {
    if !Truthy(f.name) || !Truthy(f.email) then Some(NameEmailRequired)
    else if Truthy(f.phone) && !TenDigits(f.phone.value) then Some(BadPhone)
    else if f.dob.Unparseable? then Some(BadDob)
    else if Truthy(f.bloodGroup) && f.bloodGroup.value !in BloodGroups then Some(BadBloodGroup)
    else if Truthy(f.gender) && f.gender.value !in Genders then Some(BadGender)
    else None
  }

  /** Each refusal names the first check that fails: a later check is only
      reported when every earlier one passed. A form is accepted exactly when
      all five pass, and an accepted form's gender, or "", passes the
      schema's enum. */
  lemma ValidateFirstFailure(f: ProfileForm)
    ensures Validate(f) == Some(NameEmailRequired) <==> !Truthy(f.name) || !Truthy(f.email)
    ensures Validate(f) == Some(BadPhone) <==>
      Truthy(f.name) && Truthy(f.email) && Truthy(f.phone) && !TenDigits(f.phone.value)
    ensures Validate(f) == Some(BadDob) <==>
      Truthy(f.name) && Truthy(f.email) && !(Truthy(f.phone) && !TenDigits(f.phone.value)) && f.dob.Unparseable?
    ensures Validate(f).None? <==>
      && Truthy(f.name) && Truthy(f.email)
      && (Truthy(f.phone) ==> TenDigits(f.phone.value))
      && !f.dob.Unparseable?
      && (Truthy(f.bloodGroup) ==> f.bloodGroup.value in BloodGroups)
      && (Truthy(f.gender) ==> f.gender.value in Genders)
    ensures Validate(f).None? ==> ParseGender(OrElse(f.gender, "")).Some?
  {
  }

  /** The profile the route saves for an accepted form: name and email as
      given, every other field as given or else "" (the date of birth null). */
  function Overwritten(id: PatientId, f: ProfileForm): Patient {
    Patient(id, f.name, f.email, Some(OrElse(f.phone, "")), Some(OrElse(f.address, "")),
            Some(OrElse(f.gender, "")), if f.dob.At? then Some(f.dob.t) else None, Some(OrElse(f.bloodGroup, "")))
  }

  /** `POST /`: the checks, then the caller's profile is overwritten or
      created and saved; then, if the caller's account has no profile id yet
      and its role is patient, the profile's id is recorded there. A caller
      without an account gets a 500 after the profile was saved. */
  function UpsertStep(s: State, caller: UserId, f: ProfileForm): Step<Patient> {
    match Validate(f)
    case Some(w) => Step(s, BadRequest(w, false))
    case None =>
      var existing := caller in s.patients;
      var id := if existing then s.patients[caller].id else s.nextId;
      var p := Overwritten(id, f);
      var saved := s.(patients := s.patients[caller := p], nextId := if existing then s.nextId else s.nextId + 1);
      if caller !in s.users then Step(saved, ServerError)
      else
        var u := s.users[caller];
        if u.profileId.None? && u.role == PatientRole then Step(saved.(users := s.users[caller := u.(profileId := Some(id))]), Ok(p))
        else Step(saved, Ok(p))
  }

  method PostProfile(db: Db, caller: UserId, f: ProfileForm) returns (r: Reply<Patient>)
    modifies db
    ensures Step(db.Snapshot(), r) == UpsertStep(old(db.Snapshot()), caller, f)
  {
    var problem := Validate(f);
    if problem.Some? {
      return BadRequest(problem.value, false);
    }
    var patient: Patient;
    if caller in db.patients {
      patient := db.patients[caller];
      patient := patient.(name := f.name, email := f.email);
      patient := patient.(phone := Some(OrElse(f.phone, "")), address := Some(OrElse(f.address, "")));
      patient := patient.(gender := Some(OrElse(f.gender, "")));
      patient := patient.(dob := if f.dob.At? then Some(f.dob.t) else None);
      patient := patient.(bloodGroup := Some(OrElse(f.bloodGroup, "")));
    } else {
      patient := Overwritten(db.nextId, f);
      db.nextId := db.nextId + 1;
    }
    db.patients := db.patients[caller := patient];
    if caller !in db.users {
      return ServerError;
    }
    var user := db.users[caller];
    if user.profileId.None? && user.role == PatientRole {
      db.users := db.users[caller := user.(profileId := Some(patient.id))];
    }
    r := Ok(patient);
  }

  /** A refused form writes nothing. An accepted one leaves the caller with
      exactly the overwritten profile, keeping the profile's id when it
      existed and drawing a fresh one otherwise; no other profile, no
      appointment and no doctor changes, and of the accounts only the
      caller's profile id can change, from unset to that profile's id and
      only for a patient. */
  lemma UpsertEffect(s: State, caller: UserId, f: ProfileForm)
    ensures var r := UpsertStep(s, caller, f);
      && (Validate(f).Some? ==> r == Step(s, BadRequest(Validate(f).value, false)))
      && (Validate(f).None? ==>
            var id := if caller in s.patients then s.patients[caller].id else s.nextId;
            && r.state.patients == s.patients[caller := Overwritten(id, f)]
            && r.state.appointments == s.appointments && r.state.doctors == s.doctors
            && (r.reply.Ok? <==> caller in s.users)
            && (r.reply.Ok? ==> r.reply.value == Overwritten(id, f))
            && (forall u :: u in s.users && u != caller ==> u in r.state.users && r.state.users[u] == s.users[u])
            && (caller in s.users ==>
                  var before := s.users[caller];
                  && caller in r.state.users
                  && r.state.users[caller].profileId ==
                       (if before.profileId.None? && before.role == PatientRole then Some(id) else before.profileId)
                  && r.state.users[caller] == before.(profileId := r.state.users[caller].profileId))
            && r.state.users.Keys == s.users.Keys)
  {
  }

  /** Overwriting is not merging: an optional field the form omits is
      cleared even when the stored profile had a value for it. */
  lemma OverwriteClearsOmittedFields(s: State, caller: UserId, f: ProfileForm)
    requires Validate(f).None? && caller in s.patients
    requires f.phone.None? && f.address.None? && f.dob.Absent?
    ensures var p := UpsertStep(s, caller, f).state.patients[caller];
      p.phone == Some("") && p.address == Some("") && p.dob.None?
  {
  }

  /** Submitting the same form twice leaves the store as submitting it once. */
  lemma UpsertIdempotent(s: State, caller: UserId, f: ProfileForm)
    ensures var s1 := UpsertStep(s, caller, f).state;
      UpsertStep(s1, caller, f).state == s1
  {
    if Validate(f).None? {
      var s1 := UpsertStep(s, caller, f).state;
      var id := if caller in s.patients then s.patients[caller].id else s.nextId;
      assert caller in s1.patients && s1.patients[caller].id == id;
      assert s1.patients[caller := Overwritten(id, f)] == s1.patients;
      if caller in s.users {
        var u1 := s1.users[caller];
        assert !(u1.profileId.None? && u1.role == PatientRole);
      }
    }
  }

  /** `GET /me`: the caller's profile, or a 404. */
  function GetMe(s: State, caller: UserId): Reply<Patient> {
    if caller in s.patients then Ok(s.patients[caller]) else NotFound(ProfileMissing, false)
  }

  /** After an accepted form, `GET /me` returns exactly the profile saved. */
  lemma GetMeAfterUpsert(s: State, caller: UserId, f: ProfileForm)
    requires UpsertStep(s, caller, f).reply.Ok?
    ensures GetMe(UpsertStep(s, caller, f).state, caller) == UpsertStep(s, caller, f).reply
    ensures GetMe(s, caller).NotFound? <==> caller !in s.patients
  {
  }
}
