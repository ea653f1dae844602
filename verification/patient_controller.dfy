/** The patient controller (`controllers/patientController.js`): a second
    profile upsert that merges truthy fields over the stored ones, two
    lookups, and a partial update that never creates a profile. */
module PatientController {
  import opened Common
  import opened Models
  import opened Store

  /** The profile `new Patient({...})` builds from the body: every field as
      given (a missing one unset), an empty date string cast to null. */
  function Created(id: PatientId, f: ProfileForm): Patient {
    Patient(id, f.name, f.email, f.phone, f.address, f.gender, if f.dob.At? then Some(f.dob.t) else None, f.bloodGroup)
  }

  /** `field = given || field` on every field of a stored profile. */
  function Merged(p: Patient, f: ProfileForm): Patient {
    p.(name := if Truthy(f.name) then f.name else p.name,
       email := if Truthy(f.email) then f.email else p.email,
       phone := if Truthy(f.phone) then f.phone else p.phone,
       address := if Truthy(f.address) then f.address else p.address,
       gender := if Truthy(f.gender) then f.gender else p.gender,
       dob := if f.dob.At? then Some(f.dob.t) else p.dob,
       bloodGroup := if Truthy(f.bloodGroup) then f.bloodGroup else p.bloodGroup)
  }

  /** `createPatient`: create the caller's profile from the body, or merge
      the body's truthy fields into it; the save fails on a date that does
      not parse and on a gender it writes that is outside the enum. Then an
      existing account without a profile id gets this profile's id, whatever
      its role. */
  function CreateStep(s: State, caller: UserId, f: ProfileForm): Step<Patient> {
    var existing := caller in s.patients;
    var id := if existing then s.patients[caller].id else s.nextId;
    var p := if existing then Merged(s.patients[caller], f) else Created(id, f);
    var writesGender := if existing then Truthy(f.gender) else f.gender.Some?;
    if f.dob.Unparseable? || (writesGender && !GenderAccepted(f.gender)) then Step(s, ServerError)
    else
      var saved := s.(patients := s.patients[caller := p], nextId := if existing then s.nextId else s.nextId + 1);
      if caller in s.users && s.users[caller].profileId.None? then
        Step(saved.(users := s.users[caller := s.users[caller].(profileId := Some(id))]), Ok(p))
      else Step(saved, Ok(p))
  }

  method CreatePatient(db: Db, caller: UserId, f: ProfileForm) returns (r: Reply<Patient>)
    modifies db
    ensures Step(db.Snapshot(), r) == CreateStep(old(db.Snapshot()), caller, f)
  {
    var patient: Patient;
    var writesGender: bool;
    if caller !in db.patients {
      patient := Created(db.nextId, f);
      writesGender := f.gender.Some?;
    } else {
      patient := Merged(db.patients[caller], f);
      writesGender := Truthy(f.gender);
    }
    if f.dob.Unparseable? || (writesGender && !GenderAccepted(f.gender)) {
      return ServerError;
    }
    if caller !in db.patients {
      db.nextId := db.nextId + 1;
    }
    db.patients := db.patients[caller := patient];
    if caller in db.users && db.users[caller].profileId.None? {
      db.users := db.users[caller := db.users[caller].(profileId := Some(patient.id))];
    }
    r := Ok(patient);
  }

  /** For a caller without a profile the save succeeds exactly when the
      date parses and a given gender is in the enum; the new profile holds
      the body's fields as given under a fresh id, and nothing else but the
      caller's account changes. */
  lemma CreateNewProfile(s: State, caller: UserId, f: ProfileForm)
    requires Consistent(s) && caller !in s.patients
    ensures var r := CreateStep(s, caller, f);
      && (r.reply.Ok? <==> !f.dob.Unparseable? && GenderAccepted(f.gender))
      && (!r.reply.Ok? ==> r == Step(s, ServerError))
      && (r.reply.Ok? ==>
            && r.reply.value == Created(s.nextId, f)
            && r.state.patients == s.patients[caller := Created(s.nextId, f)]
            && (forall u :: u in s.patients ==> s.patients[u].id != s.nextId)
            && r.state.nextId == s.nextId + 1
            && r.state.appointments == s.appointments && r.state.doctors == s.doctors
            && r.state.users.Keys == s.users.Keys)
  {
    FreshIdIsUnused(s);
  }

  /** On a stored profile every field the body gives a truthy value for is
      replaced and every other field keeps its stored value; the profile's id
      is kept. */
  lemma MergeKeepsOmittedFields(s: State, caller: UserId, f: ProfileForm)
    requires caller in s.patients
    requires CreateStep(s, caller, f).reply.Ok?
    ensures var before := s.patients[caller];
      var after := CreateStep(s, caller, f).state.patients[caller];
      && after.id == before.id
      && after.name == (if Truthy(f.name) then f.name else before.name)
      && after.email == (if Truthy(f.email) then f.email else before.email)
      && after.phone == (if Truthy(f.phone) then f.phone else before.phone)
      && after.address == (if Truthy(f.address) then f.address else before.address)
      && after.gender == (if Truthy(f.gender) then f.gender else before.gender)
      && after.dob == (if f.dob.At? then Some(f.dob.t) else before.dob)
      && after.bloodGroup == (if Truthy(f.bloodGroup) then f.bloodGroup else before.bloodGroup)
    ensures !Truthy(f.name) && !Truthy(f.email) && !Truthy(f.phone) && !Truthy(f.address) && !Truthy(f.gender)
            && !f.dob.At? && !Truthy(f.bloodGroup) ==>
      CreateStep(s, caller, f).state.patients[caller] == s.patients[caller]
  {
  }

  /** Merging the same body twice leaves the store as merging it once. */
  lemma MergeIdempotent(s: State, caller: UserId, f: ProfileForm)
    ensures var s1 := CreateStep(s, caller, f).state;
      CreateStep(s1, caller, f).state == s1
  {
    var r := CreateStep(s, caller, f);
    if r.reply.Ok? {
      var s1 := r.state;
      var id := if caller in s.patients then s.patients[caller].id else s.nextId;
      assert caller in s1.patients && s1.patients[caller].id == id;
      assert Merged(s1.patients[caller], f) == s1.patients[caller];
      assert s1.patients[caller := s1.patients[caller]] == s1.patients;
      if !(caller in s.patients) && f.gender.Some? && f.gender.value != "" {
        assert GenderAccepted(f.gender);
      }
    }
  }

  /** Unlike the route, the controller records the profile id on any
      account that has none, a doctor's included, and never replaces one. */
  lemma ProfileIdSetWhenUnset(s: State, caller: UserId, f: ProfileForm)
    requires CreateStep(s, caller, f).reply.Ok?
    ensures var after := CreateStep(s, caller, f).state;
      && after.users.Keys == s.users.Keys
      && (forall u :: u in s.users && u != caller ==> after.users[u] == s.users[u])
      && (caller in s.users && s.users[caller].profileId.Some? ==> after.users[caller] == s.users[caller])
      && (caller in s.users && s.users[caller].profileId.None? ==>
            after.users[caller] == s.users[caller].(profileId := Some(after.patients[caller].id)))
  {
  }

  /** `getPatient`: the caller's profile, or a 404 asking for one. */
  function GetPatient(s: State, caller: UserId): Reply<Patient> {
    if caller in s.patients then Ok(s.patients[caller]) else NotFound(ProfileMissing, true)
  }

  /** `getPatientById`: a path id other than the caller's own is refused
      before any lookup; otherwise the same as `getPatient`. */
  function GetPatientById(s: State, pathUser: UserId, caller: UserId): Reply<Patient> {
    if pathUser != caller then Forbidden(AccessDenied) else GetPatient(s, caller)
  }

  /** Nobody reads another user's profile: the answer for a foreign path id
      is a 403 whether or not either profile exists. */
  lemma GetPatientByIdOnlyOwn(s: State, pathUser: UserId, caller: UserId)
    ensures pathUser != caller <==> GetPatientById(s, pathUser, caller) == Forbidden(AccessDenied)
    ensures GetPatientById(s, pathUser, caller).Ok? ==>
      pathUser == caller && caller in s.patients && GetPatientById(s, pathUser, caller).value == s.patients[caller]
    ensures pathUser == caller && caller !in s.patients ==> GetPatientById(s, pathUser, caller) == NotFound(ProfileMissing, true)
  {
  }

  /** `updatePatient`: a `$set` of the fields the body carries (a missing
      key is dropped, an empty string is written, an empty date string
      clears the date) on the caller's profile, without validators and
      without creating one. A date that does not parse fails the cast. */
  function UpdateStep(s: State, caller: UserId, f: ProfileForm): Step<Patient> {
    if f.dob.Unparseable? then Step(s, ServerError)
    else if caller !in s.patients then Step(s, NotFound(ProfileMissing, true))
    else
      var p := s.patients[caller];
      var q := p.(name := if f.name.Some? then f.name else p.name,
                  email := if f.email.Some? then f.email else p.email,
                  phone := if f.phone.Some? then f.phone else p.phone,
                  address := if f.address.Some? then f.address else p.address,
                  gender := if f.gender.Some? then f.gender else p.gender,
                  dob := if f.dob.At? then Some(f.dob.t) else if f.dob.Empty? then None else p.dob,
                  bloodGroup := if f.bloodGroup.Some? then f.bloodGroup else p.bloodGroup);
      Step(s.(patients := s.patients[caller := q]), Ok(q))
  }

  method UpdatePatient(db: Db, caller: UserId, f: ProfileForm) returns (r: Reply<Patient>)
    modifies db
    ensures Step(db.Snapshot(), r) == UpdateStep(old(db.Snapshot()), caller, f)
  {
    if f.dob.Unparseable? {
      return ServerError;
    }
    if caller !in db.patients {
      return NotFound(ProfileMissing, true);
    }
    var p := db.patients[caller];
    if f.name.Some? { p := p.(name := f.name); }
    if f.email.Some? { p := p.(email := f.email); }
    if f.phone.Some? { p := p.(phone := f.phone); }
    if f.address.Some? { p := p.(address := f.address); }
    if f.gender.Some? { p := p.(gender := f.gender); }
    if f.dob.At? { p := p.(dob := Some(f.dob.t)); } else if f.dob.Empty? { p := p.(dob := None); }
    if f.bloodGroup.Some? { p := p.(bloodGroup := f.bloodGroup); }
    db.patients := db.patients[caller := p];
    r := Ok(p);
  }

  /** An update never creates a profile and touches only the caller's; it
      keeps the profile's id and every field the body leaves out, writes
      every field the body carries, even an empty one, and an empty date
      clears the stored date. */
  lemma UpdateNeverCreates(s: State, caller: UserId, f: ProfileForm)
    ensures var r := UpdateStep(s, caller, f);
      && r.state.patients.Keys == s.patients.Keys
      && r.state.users == s.users && r.state.appointments == s.appointments && r.state.doctors == s.doctors
      && r.state.nextId == s.nextId
      && (caller !in s.patients ==> r.state == s && (r.reply.NotFound? || r.reply.ServerError?))
      && (forall u :: u in s.patients && u != caller ==> r.state.patients[u] == s.patients[u])
      && (r.reply.Ok? ==>
            var before := s.patients[caller];
            var after := r.state.patients[caller];
            && after.id == before.id && r.reply.value == after
            && after.name == (if f.name.None? then before.name else f.name)
            && after.email == (if f.email.None? then before.email else f.email)
            && after.phone == (if f.phone.None? then before.phone else f.phone)
            && after.address == (if f.address.None? then before.address else f.address)
            && after.gender == (if f.gender.None? then before.gender else f.gender)
            && after.bloodGroup == (if f.bloodGroup.None? then before.bloodGroup else f.bloodGroup)
            && (f.dob.Absent? ==> after.dob == before.dob)
            && (f.dob.Empty? ==> after.dob.None?)
            && (f.dob.At? ==> after.dob == Some(f.dob.t)))
      && (r.reply.Ok? <==> caller in s.patients && !f.dob.Unparseable?)
  {
  }

  /** The update runs no validators: it stores a gender outside the enum,
      which a save of a new or merged profile would refuse. */
  lemma UpdateBypassesGenderEnum(s: State, caller: UserId, f: ProfileForm)
    requires caller in s.patients && !f.dob.Unparseable?
    requires f.gender == Some("unknown")
    ensures UpdateStep(s, caller, f).reply.Ok?
    ensures !GenderAccepted(UpdateStep(s, caller, f).state.patients[caller].gender)
    ensures CreateStep(s, caller, f).reply == ServerError
  {
  }
}
