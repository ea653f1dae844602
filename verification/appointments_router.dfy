/** The mounted appointment routes (`routes/appointments.js`): booking,
    cancelling, paying for, listing, editing and deleting appointments. */
module AppointmentsRouter {
  import opened Common
  import opened Models
  import opened SlotLedger
  import opened Store

  /** The appointment fields a request body may carry. */
  datatype Fields = Fields(doctorId: Option<DoctorId>, date: DateInput, time: Option<string>, reason: Option<string>)

  // ------------------------------------------------------------------ POST /

  /** `POST /`: profile, then doctor, then slot; the appointment is saved
      before the slot is flipped and the doctor saved. A date that is not a
      valid date makes `toISOString` throw as soon as `find` compares a slot. */
  function BookStep(s: State, caller: UserId, req: Fields, save: SaveOutcome): Step<AppointmentId> {
    if caller !in s.patients then Step(s, BadRequest(ProfileMissing, true))
    else if req.doctorId.None? || req.doctorId.value !in s.doctors then Step(s, NotFound(DoctorMissing, false))
    else
      var did := req.doctorId.value;
      var d := s.doctors[did];
      if !req.date.At? then
        (if d.availableSlots == [] then Step(s, BadRequest(SlotTaken, false)) else Step(s, ServerError))
      else
        match BookableIn(d.availableSlots, DayKey(req.date.t), req.time)
        case None => Step(s, BadRequest(SlotTaken, false))
        case Some(k) =>
          var id := s.nextId;
          var appt := NewAppointment(did, s.patients[caller].id, req.date.t, OrElse(req.time, ""), d.fees, req.reason);
          var saved := s.(appointments := s.appointments[id := appt], nextId := id + 1);
          if save.SecondSaveFails? then Step(saved, ServerError)
          else Step(saved.(doctors := s.doctors[did := d.(availableSlots := SetAvailable(d.availableSlots, k, false))]), Ok(id))
  }

  method PostAppointment(db: Db, caller: UserId, req: Fields, save: SaveOutcome) returns (r: Reply<AppointmentId>)
    modifies db
    ensures Step(db.Snapshot(), r) == BookStep(old(db.Snapshot()), caller, req, save)
  {
    if caller !in db.patients {
      return BadRequest(ProfileMissing, true);
    }
    var patient := db.patients[caller];
    if req.doctorId.None? || req.doctorId.value !in db.doctors {
      return NotFound(DoctorMissing, false);
    }
    var did := req.doctorId.value;
    var doctor := db.doctors[did];
    if !req.date.At? {
      if doctor.availableSlots == [] {
        return BadRequest(SlotTaken, false);
      }
      return ServerError;
    }
    var found := BookableIn(doctor.availableSlots, DayKey(req.date.t), req.time);
    if found.None? {
      return BadRequest(SlotTaken, false);
    }
    var id := db.nextId;
    db.appointments := db.appointments[id := NewAppointment(did, patient.id, req.date.t, OrElse(req.time, ""), doctor.fees, req.reason)];
    db.nextId := id + 1;
    if save == SecondSaveFails {
      return ServerError;
    }
    db.doctors := db.doctors[did := doctor.(availableSlots := SetAvailable(doctor.availableSlots, found.value, false))];
    r := Ok(id);
  }

  /** The three checks in their order: a caller without a profile is told to
      complete it whatever else the request says, then an unknown doctor is a
      404, then a request no slot matches is a 400; none of them writes. */
  lemma BookChecksInOrder(s: State, caller: UserId, req: Fields, save: SaveOutcome)
    ensures caller !in s.patients ==> BookStep(s, caller, req, save) == Step(s, BadRequest(ProfileMissing, true))
    ensures caller in s.patients && (req.doctorId.None? || req.doctorId.value !in s.doctors) ==>
      BookStep(s, caller, req, save) == Step(s, NotFound(DoctorMissing, false))
    ensures (&& caller in s.patients && req.doctorId.Some? && req.doctorId.value in s.doctors && req.date.At?
             && BookableIn(s.doctors[req.doctorId.value].availableSlots, DayKey(req.date.t), req.time).None?) ==>
      BookStep(s, caller, req, save) == Step(s, BadRequest(SlotTaken, false))
  {
  }

  /** A refused booking, and one that fails before writing, leaves the store
      as it was; only a failing second save leaves a partial write behind. */
  lemma BookFailureWritesNothing(s: State, caller: UserId, req: Fields, save: SaveOutcome)
    ensures var r := BookStep(s, caller, req, save);
      !r.reply.Ok? && r.state != s ==> save == SecondSaveFails && r.reply == ServerError
  {
  }

  /** A successful booking adds one pending appointment carrying the doctor's
      fee and the requested date and time, under an id not used before, and
      turns exactly the first bookable slot of that day and time unavailable;
      every other appointment, doctor, slot, profile and user is unchanged. */
  lemma BookSuccess(s: State, caller: UserId, req: Fields, save: SaveOutcome)
    requires Consistent(s)
    requires BookStep(s, caller, req, save).reply.Ok?
    ensures caller in s.patients && req.doctorId.Some? && req.doctorId.value in s.doctors && req.date.At?
    ensures var r := BookStep(s, caller, req, save);
      var did := req.doctorId.value;
      var d := s.doctors[did];
      var slots := d.availableSlots;
      var k := BookableIn(slots, DayKey(req.date.t), req.time);
      && r.reply.value !in s.appointments
      && req.time.Some?
      && r.state.appointments == s.appointments[r.reply.value :=
           Appointment(did, s.patients[caller].id, req.date.t, req.time.value, d.fees, req.reason, Pending, None, None)]
      && k.Some? && Bookable(slots[k.value], DayKey(req.date.t), req.time)
      && (forall j :: 0 <= j < k.value ==> !Bookable(slots[j], DayKey(req.date.t), req.time))
      && r.state.doctors.Keys == s.doctors.Keys
      && (forall e :: e in s.doctors && e != did ==> r.state.doctors[e] == s.doctors[e])
      && r.state.doctors[did] == d.(availableSlots := r.state.doctors[did].availableSlots)
      && |r.state.doctors[did].availableSlots| == |slots|
      && !r.state.doctors[did].availableSlots[k.value].isAvailable
      && r.state.doctors[did].availableSlots[k.value] == slots[k.value].(isAvailable := false)
      && (forall j :: 0 <= j < |slots| && j != k.value ==> r.state.doctors[did].availableSlots[j] == slots[j])
      && r.state.patients == s.patients && r.state.users == s.users
  {
    var did := req.doctorId.value;
    var slots := s.doctors[did].availableSlots;
    BookableInIsFirstMatch(slots, DayKey(req.date.t), req.time);
  }

  /** Once a booking took a slot, the same request (by anyone with a
      profile) never gets that slot again, and gets no slot at all when the
      doctor's (day, time) pairs are unique. */
  lemma RebookingFails(s: State, caller: UserId, other: UserId, req: Fields, save: SaveOutcome)
    requires BookStep(s, caller, req, AllSaved).reply.Ok?
    requires other in BookStep(s, caller, req, AllSaved).state.patients
    ensures var s1 := BookStep(s, caller, req, AllSaved).state;
      var r2 := BookStep(s1, other, req, save);
      && (r2.reply.Ok? ==> BookableIn(s1.doctors[req.doctorId.value].availableSlots, DayKey(req.date.t), req.time)
                            != BookableIn(s.doctors[req.doctorId.value].availableSlots, DayKey(req.date.t), req.time))
      && (UniqueKeys(s.doctors[req.doctorId.value].availableSlots) ==> r2 == Step(s1, BadRequest(SlotTaken, false)))
  {
    var slots := s.doctors[req.doctorId.value].availableSlots;
    TakenSlotNotOfferedAgain(slots, DayKey(req.date.t), req.time);
  }

  /** The router saves the appointment first: when the doctor's save then
      fails, the appointment is stored as pending while its slot is still
      offered to the next booking. */
  lemma BookPartialWriteLeavesSlotOpen(s: State, caller: UserId, req: Fields)
    requires BookStep(s, caller, req, AllSaved).reply.Ok?
    ensures var r := BookStep(s, caller, req, SecondSaveFails);
      && r.reply == ServerError
      && s.nextId in r.state.appointments && r.state.appointments[s.nextId].status == Pending
      && r.state.doctors == s.doctors
      && BookableIn(r.state.doctors[req.doctorId.value].availableSlots, DayKey(req.date.t), req.time).Some?
  {
  }

  // --------------------------------------------------------- PUT /cancel/:id

  /** `PUT /cancel/:id`: 404, 403, 400 for an already cancelled appointment;
      then the status is saved, and then the first slot of that doctor with
      the same day and time is marked available and the doctor saved. */
  function CancelStep(s: State, caller: UserId, id: AppointmentId, save: SaveOutcome): Step<()> {
    if id !in s.appointments then Step(s, NotFound(AppointmentMissing, false))
    else
      var a := s.appointments[id];
      if !Owns(s, caller, a) then Step(s, Forbidden(NotOwner))
      else if a.status == Cancelled then Step(s, BadRequest(AlreadyCancelled, false))
      else
        var saved := s.(appointments := s.appointments[id := a.(status := Cancelled)]);
        if a.doctorId !in s.doctors then Step(saved, Ok(()))
        else
          var d := s.doctors[a.doctorId];
          match ReleaseTarget(d.availableSlots, DayKey(a.date), a.time)
          case None => Step(saved, Ok(()))
          case Some(k) =>
            if save.SecondSaveFails? then Step(saved, ServerError)
            else Step(saved.(doctors := s.doctors[a.doctorId := d.(availableSlots := SetAvailable(d.availableSlots, k, true))]), Ok(()))
  }

  method PutCancel(db: Db, caller: UserId, id: AppointmentId, save: SaveOutcome) returns (r: Reply<()>)
    modifies db
    ensures Step(db.Snapshot(), r) == CancelStep(old(db.Snapshot()), caller, id, save)
  {
    if id !in db.appointments {
      return NotFound(AppointmentMissing, false);
    }
    var a := db.appointments[id];
    if !(caller in db.patients && db.patients[caller].id == a.patientId) {
      return Forbidden(NotOwner);
    }
    if a.status == Cancelled {
      return BadRequest(AlreadyCancelled, false);
    }
    db.appointments := db.appointments[id := a.(status := Cancelled)];
    r := Ok(());
    if a.doctorId in db.doctors {
      var d := db.doctors[a.doctorId];
      var found := ReleaseTarget(d.availableSlots, DayKey(a.date), a.time);
      if found.Some? {
        if save == SecondSaveFails {
          return ServerError;
        }
        db.doctors := db.doctors[a.doctorId := d.(availableSlots := SetAvailable(d.availableSlots, found.value, true))];
      }
    }
  }

  /** The guards: a missing appointment is a 404, a caller without a profile
      or not its patient a 403, a cancelled appointment a 400; none writes. */
  lemma CancelGuards(s: State, caller: UserId, id: AppointmentId, save: SaveOutcome)
    ensures id !in s.appointments ==> CancelStep(s, caller, id, save) == Step(s, NotFound(AppointmentMissing, false))
    ensures id in s.appointments && !Owns(s, caller, s.appointments[id]) ==>
      CancelStep(s, caller, id, save) == Step(s, Forbidden(NotOwner))
    ensures id in s.appointments && Owns(s, caller, s.appointments[id]) && s.appointments[id].status == Cancelled ==>
      CancelStep(s, caller, id, save) == Step(s, BadRequest(AlreadyCancelled, false))
    ensures !CancelStep(s, caller, id, save).reply.Ok? && !CancelStep(s, caller, id, save).reply.ServerError? ==>
      CancelStep(s, caller, id, save).state == s
  {
  }

  /** A cancel that passes the guards sets the status to cancelled, from
      pending and from paid alike, and changes nothing else of the
      appointment. The doctor's first slot with that day and time becomes
      available and every other slot is kept; with no doctor or no such slot
      only the status changes. */
  lemma CancelEffect(s: State, caller: UserId, id: AppointmentId)
    requires id in s.appointments && Owns(s, caller, s.appointments[id]) && s.appointments[id].status != Cancelled
    ensures var a := s.appointments[id];
      var r := CancelStep(s, caller, id, AllSaved);
      && r.reply == Ok(())
      && r.state.appointments == s.appointments[id := a.(status := Cancelled)]
      && r.state.patients == s.patients && r.state.users == s.users && r.state.nextId == s.nextId
      && r.state.doctors.Keys == s.doctors.Keys
      && (forall e :: e in s.doctors && e != a.doctorId ==> r.state.doctors[e] == s.doctors[e])
      && (a.doctorId !in s.doctors || ReleaseTarget(s.doctors[a.doctorId].availableSlots, DayKey(a.date), a.time).None?
          ==> r.state.doctors == s.doctors)
      && (a.doctorId in s.doctors ==>
          var slots := s.doctors[a.doctorId].availableSlots;
          var after := r.state.doctors[a.doctorId].availableSlots;
          && |after| == |slots|
          && (forall j :: 0 <= j < |slots| ==> after[j].date == slots[j].date && after[j].time == slots[j].time)
          && match ReleaseTarget(slots, DayKey(a.date), a.time)
             case None => after == slots
             case Some(k) =>
               && SameSlot(slots[k], DayKey(a.date), a.time) && after[k].isAvailable
               && (forall j :: 0 <= j < k ==> !SameSlot(slots[j], DayKey(a.date), a.time))
               && (forall j :: 0 <= j < |slots| && j != k ==> after[j] == slots[j]))
  {
    var a := s.appointments[id];
    if a.doctorId in s.doctors {
      var slots := s.doctors[a.doctorId].availableSlots;
      var t := ReleaseTarget(slots, DayKey(a.date), a.time);
      if t.Some? {
        var p := (sl: Slot) => SameSlot(sl, DayKey(a.date), a.time);
        assert p(slots[t.value]);
      }
    }
  }

  /** Cancelling and then booking the same day and time again gives the
      released slot back, when the doctor's (day, time) pairs are unique. */
  lemma CancelThenRebook(s: State, caller: UserId, id: AppointmentId)
    requires id in s.appointments && Owns(s, caller, s.appointments[id]) && s.appointments[id].status != Cancelled
    requires s.appointments[id].doctorId in s.doctors
    requires UniqueKeys(s.doctors[s.appointments[id].doctorId].availableSlots)
    requires ReleaseTarget(s.doctors[s.appointments[id].doctorId].availableSlots,
                           DayKey(s.appointments[id].date), s.appointments[id].time).Some?
    ensures var a := s.appointments[id];
      var s1 := CancelStep(s, caller, id, AllSaved).state;
      BookStep(s1, caller, Fields(Some(a.doctorId), At(a.date), Some(a.time), None), AllSaved).reply.Ok?
  {
    var a := s.appointments[id];
    var slots := s.doctors[a.doctorId].availableSlots;
    var k := ReleaseTarget(slots, DayKey(a.date), a.time).value;
    ReleasedSlotOfferedAgain(slots, k, DayKey(a.date), a.time);
    var s1 := CancelStep(s, caller, id, AllSaved).state;
    assert s1.doctors[a.doctorId].availableSlots == SetAvailable(slots, k, true);
    assert s1.patients == s.patients;
  }

  // ------------------------------------------------------ POST /create-order

  /** `POST /create-order`: 404, 403, 400 unless pending; the order is for
      the fee in paise, in rupees, with a receipt naming the appointment and
      no notes. Nothing in the store changes. */
  function CreateOrder(s: State, caller: UserId, id: Option<AppointmentId>): Reply<OrderRequest> {
    if id.None? || id.value !in s.appointments then NotFound(AppointmentMissing, false)
    else
      var a := s.appointments[id.value];
      if !Owns(s, caller, a) then Forbidden(NotOwner)
      else if a.status != Pending then BadRequest(NotPending, false)
      else Ok(OrderRequest(a.fees * 100, "INR", id.value, None))
  }

  /** An order is created exactly for an existing, owned, pending
      appointment, and it charges that appointment's fee in paise. */
  lemma CreateOrderOnlyForOwnedPending(s: State, caller: UserId, id: Option<AppointmentId>)
    ensures var r := CreateOrder(s, caller, id);
      && (r.Ok? <==> id.Some? && id.value in s.appointments && Owns(s, caller, s.appointments[id.value])
                     && s.appointments[id.value].status == Pending)
      && (r.Ok? ==> r.value == OrderRequest(s.appointments[id.value].fees * 100, "INR", id.value, None))
      && (id.Some? && id.value in s.appointments && !Owns(s, caller, s.appointments[id.value]) ==> r == Forbidden(NotOwner))
  {
  }

  // ---------------------------------------------------- POST /verify-payment

  /** `POST /verify-payment`: the signature gate, then the appointment is
      looked up and marked paid with the payment id, whoever calls and
      whatever its status was. `sign` is the keyed HMAC-SHA256 in hex. */
  function VerifyPaymentStep(s: State, caller: UserId, p: PaymentProof, sign: string -> string): Step<()> {
    if sign(SignedText(p)) != p.signature then Step(s, BadRequest(BadSignature, false))
    else if p.appointmentId.None? || p.appointmentId.value !in s.appointments then Step(s, NotFound(AppointmentMissing, false))
    else
      var id := p.appointmentId.value;
      var a := s.appointments[id];
      Step(s.(appointments := s.appointments[id := a.(status := Paid, paymentId := Some(p.paymentId))]), Ok(()))
  }

  method PostVerifyPayment(db: Db, caller: UserId, p: PaymentProof, sign: string -> string) returns (r: Reply<()>)
    modifies db
    ensures Step(db.Snapshot(), r) == VerifyPaymentStep(old(db.Snapshot()), caller, p, sign)
  {
    if sign(SignedText(p)) != p.signature {
      return BadRequest(BadSignature, false);
    }
    if p.appointmentId.None? || p.appointmentId.value !in db.appointments {
      return NotFound(AppointmentMissing, false);
    }
    var id := p.appointmentId.value;
    var a := db.appointments[id];
    db.appointments := db.appointments[id := a.(status := Paid, paymentId := Some(p.paymentId))];
    r := Ok(());
  }

  /** A bad signature changes nothing. A good one on an existing appointment
      makes it paid with the payment id and changes nothing else; the
      outcome is the same for every caller, owner or not. */
  lemma VerifyPaymentEffect(s: State, caller: UserId, other: UserId, p: PaymentProof, sign: string -> string)
    ensures sign(SignedText(p)) != p.signature ==> VerifyPaymentStep(s, caller, p, sign) == Step(s, BadRequest(BadSignature, false))
    ensures VerifyPaymentStep(s, caller, p, sign) == VerifyPaymentStep(s, other, p, sign)
    ensures sign(SignedText(p)) == p.signature && p.appointmentId.Some? && p.appointmentId.value in s.appointments ==>
      var id := p.appointmentId.value;
      var r := VerifyPaymentStep(s, caller, p, sign);
      && r.reply == Ok(())
      && r.state == s.(appointments := s.appointments[id := s.appointments[id].(status := Paid, paymentId := Some(p.paymentId))])
  {
  }

  /** There is no status check: a correctly signed payment revives a
      cancelled appointment as paid, although its slot was released. */
  lemma PaymentRevivesCancelled(s: State, caller: UserId, p: PaymentProof, sign: string -> string)
    requires sign(SignedText(p)) == p.signature
    requires p.appointmentId.Some? && p.appointmentId.value in s.appointments
    requires s.appointments[p.appointmentId.value].status == Cancelled
    ensures VerifyPaymentStep(s, caller, p, sign).state.appointments[p.appointmentId.value].status == Paid
  {
  }

  // ----------------------------------------------------- GET /my-appointments

  /** The caller's appointments whose doctor still exists: a deleted doctor
      populates as `null`, and those entries are filtered out. */
  function MineWithDoctor(s: State, pid: PatientId): set<AppointmentId> {
    set id | id in s.appointments && s.appointments[id].patientId == pid && s.appointments[id].doctorId in s.doctors
  }

  /** `GET /my-appointments`: 404 without a profile, otherwise the caller's
      appointments with an existing doctor, every status included, newest
      date first. */
  method MyAppointments(s: State, caller: UserId) returns (r: Reply<seq<AppointmentId>>)
    ensures caller !in s.patients <==> r == NotFound(ProfileMissing, false)
    ensures caller in s.patients ==> r.Ok?
    ensures r.Ok? ==> caller in s.patients && ListsExactly(r.value, MineWithDoctor(s, s.patients[caller].id))
    ensures r.Ok? ==> (forall i :: 0 <= i < |r.value| ==> r.value[i] in s.appointments)
    ensures r.Ok? ==> NewestFirst(s.appointments, r.value)
  {
    if caller !in s.patients {
      return NotFound(ProfileMissing, false);
    }
    var ids := SortNewestFirst(s.appointments, MineWithDoctor(s, s.patients[caller].id));
    r := Ok(ids);
  }

  // ----------------------------------------------------------------- PUT /:id

  /** `PUT /:id`: 404, 403, then a `$set` of the truthy fields among doctor,
      date, time and reason, without validators and without touching any
      slot. A date that does not parse fails the cast: a 500, nothing written. */
  function UpdateStep(s: State, caller: UserId, id: AppointmentId, req: Fields): Step<Appointment> {
    if id !in s.appointments then Step(s, NotFound(AppointmentMissing, false))
    else
      var a := s.appointments[id];
      if !Owns(s, caller, a) then Step(s, Forbidden(NotOwner))
      else if req.date.Unparseable? then Step(s, ServerError)
      else
        var b := a.(doctorId := if req.doctorId.Some? then req.doctorId.value else a.doctorId,
                    date := if req.date.At? then req.date.t else a.date,
                    time := if Truthy(req.time) then req.time.value else a.time,
                    reason := if Truthy(req.reason) then req.reason else a.reason);
        Step(s.(appointments := s.appointments[id := b]), Ok(b))
  }

  method PutAppointment(db: Db, caller: UserId, id: AppointmentId, req: Fields) returns (r: Reply<Appointment>)
    modifies db
    ensures Step(db.Snapshot(), r) == UpdateStep(old(db.Snapshot()), caller, id, req)
  {
    if id !in db.appointments {
      return NotFound(AppointmentMissing, false);
    }
    var b := db.appointments[id];
    if !(caller in db.patients && db.patients[caller].id == b.patientId) {
      return Forbidden(NotOwner);
    }
    if req.date.Unparseable? {
      return ServerError;
    }
    if req.doctorId.Some? { b := b.(doctorId := req.doctorId.value); }
    if req.date.At? { b := b.(date := req.date.t); }
    if Truthy(req.time) { b := b.(time := req.time.value); }
    if Truthy(req.reason) { b := b.(reason := req.reason); }
    db.appointments := db.appointments[id := b];
    r := Ok(b);
  }

  /** An update changes only the fields it was given a truthy value for; it
      never changes status, fee, patient or payment, never touches a doctor
      or a slot, and keeps every other appointment. */
  lemma UpdateTouchesOnlyGivenFields(s: State, caller: UserId, id: AppointmentId, req: Fields)
    ensures var r := UpdateStep(s, caller, id, req);
      && r.state.doctors == s.doctors && r.state.patients == s.patients && r.state.users == s.users
      && r.state.appointments.Keys == s.appointments.Keys
      && (forall e :: e in s.appointments && e != id ==> r.state.appointments[e] == s.appointments[e])
      && (r.reply.Ok? ==>
          var a := s.appointments[id];
          var b := r.state.appointments[id];
          && r.reply.value == b
          && b.status == a.status && b.fees == a.fees && b.patientId == a.patientId && b.paymentId == a.paymentId
          && (req.doctorId.None? ==> b.doctorId == a.doctorId)
          && (!req.date.At? ==> b.date == a.date)
          && (!Truthy(req.time) ==> b.time == a.time)
          && (!Truthy(req.reason) ==> b.reason == a.reason)
          && (req.doctorId.Some? ==> b.doctorId == req.doctorId.value)
          && (req.date.At? ==> b.date == req.date.t)
          && (Truthy(req.time) ==> b.time == req.time.value)
          && (Truthy(req.reason) ==> b.reason == req.reason))
  {
  }

  /** The update is not checked against anything: it can move an appointment
      to a doctor that does not exist. */
  lemma UpdateCanNameUnknownDoctor(s: State, caller: UserId, id: AppointmentId, ghostDoctor: DoctorId)
    requires id in s.appointments && Owns(s, caller, s.appointments[id]) && ghostDoctor !in s.doctors
    ensures var r := UpdateStep(s, caller, id, Fields(Some(ghostDoctor), Absent, None, None));
      r.reply.Ok? && r.state.appointments[id].doctorId !in r.state.doctors
  {
  }

  // -------------------------------------------------------------- DELETE /:id

  /** `DELETE /:id`: 404, 403, then the document is removed. */
  function DeleteStep(s: State, caller: UserId, id: AppointmentId): Step<()> {
    if id !in s.appointments then Step(s, NotFound(AppointmentMissing, false))
    else if !Owns(s, caller, s.appointments[id]) then Step(s, Forbidden(NotOwner))
    else Step(s.(appointments := s.appointments - {id}), Ok(()))
  }

  method DeleteAppointment(db: Db, caller: UserId, id: AppointmentId) returns (r: Reply<()>)
    modifies db
    ensures Step(db.Snapshot(), r) == DeleteStep(old(db.Snapshot()), caller, id)
  {
    if id !in db.appointments {
      return NotFound(AppointmentMissing, false);
    }
    var a := db.appointments[id];
    if !(caller in db.patients && db.patients[caller].id == a.patientId) {
      return Forbidden(NotOwner);
    }
    db.appointments := db.appointments - {id};
    r := Ok(());
  }

  /** Deleting removes exactly that appointment and releases no slot: a
      booked slot stays unavailable after its appointment is gone. */
  lemma DeleteKeepsSlots(s: State, caller: UserId, id: AppointmentId)
    ensures var r := DeleteStep(s, caller, id);
      && r.state.doctors == s.doctors
      && (r.reply.Ok? <==> id in s.appointments && Owns(s, caller, s.appointments[id]))
      && (r.reply.Ok? ==> r.state.appointments.Keys == s.appointments.Keys - {id})
      && (forall e :: e in r.state.appointments ==> e in s.appointments && r.state.appointments[e] == s.appointments[e])
  {
  }
}
