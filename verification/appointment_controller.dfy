/** The appointment controller (`controllers/appointmentController.js`), the
    second version of booking, cancelling, listing and paying. It is not
    mounted by the server, and it differs from the mounted routes in the
    order of its checks, its status guards and the order of its saves. */
module AppointmentController {
  import opened Common
  import opened Models
  import opened SlotLedger
  import opened Store

  /** The booking body: doctor, date, time and an optional reason. */
  datatype BookRequest = BookRequest(doctorId: Option<DoctorId>, date: DateInput, time: Option<string>, reason: Option<string>)

  // --------------------------------------------------------- createAppointment

  /** `createAppointment`: the three required fields, then the doctor, then
      the profile, then the slot. The slot is flipped and the doctor saved
      before the appointment is saved; the reason defaults to "". A date that
      is given but does not parse makes `toISOString` throw on the first slot. */
  function CreateStep(s: State, caller: UserId, req: BookRequest, save: SaveOutcome): Step<AppointmentId> {
    if req.doctorId.None? || !DateTruthy(req.date) || !Truthy(req.time) then Step(s, BadRequest(MissingFields, false))
    else if req.doctorId.value !in s.doctors then Step(s, NotFound(DoctorMissing, false))
    else if caller !in s.patients then Step(s, NotFound(ProfileMissing, true))
    else
      var did := req.doctorId.value;
      var d := s.doctors[did];
      if req.date.Unparseable? then
        (if d.availableSlots == [] then Step(s, BadRequest(SlotTaken, false)) else Step(s, ServerError))
      else
        match BookableIn(d.availableSlots, DayKey(req.date.t), req.time)
        case None => Step(s, BadRequest(SlotTaken, false))
        case Some(k) =>
          var flipped := s.(doctors := s.doctors[did := d.(availableSlots := SetAvailable(d.availableSlots, k, false))]);
          if save.SecondSaveFails? then Step(flipped, ServerError)
          else
            var id := s.nextId;
            var appt := NewAppointment(did, s.patients[caller].id, req.date.t, req.time.value, d.fees, Some(OrElse(req.reason, "")));
            Step(flipped.(appointments := s.appointments[id := appt], nextId := id + 1), Ok(id))
  }

  method CreateAppointment(db: Db, caller: UserId, req: BookRequest, save: SaveOutcome) returns (r: Reply<AppointmentId>)
    modifies db
    ensures Step(db.Snapshot(), r) == CreateStep(old(db.Snapshot()), caller, req, save)
  {
    if req.doctorId.None? || !DateTruthy(req.date) || !Truthy(req.time) {
      return BadRequest(MissingFields, false);
    }
    var did := req.doctorId.value;
    if did !in db.doctors {
      return NotFound(DoctorMissing, false);
    }
    var doctor := db.doctors[did];
    if caller !in db.patients {
      return NotFound(ProfileMissing, true);
    }
    var patient := db.patients[caller];
    if req.date.Unparseable? {
      if doctor.availableSlots == [] {
        return BadRequest(SlotTaken, false);
      }
      return ServerError;
    }
    var found := BookableIn(doctor.availableSlots, DayKey(req.date.t), req.time);
    if found.None? {
      return BadRequest(SlotTaken, false);
    }
    db.doctors := db.doctors[did := doctor.(availableSlots := SetAvailable(doctor.availableSlots, found.value, false))];
    if save == SecondSaveFails {
      return ServerError;
    }
    var id := db.nextId;
    db.appointments := db.appointments[id := NewAppointment(did, patient.id, req.date.t, req.time.value, doctor.fees, Some(OrElse(req.reason, "")))];
    db.nextId := id + 1;
    r := Ok(id);
  }

  /** The checks in their order: a missing doctor, date or time is a 400
      before any lookup; then an unknown doctor is a 404 even for a caller
      without a profile (the reverse of the mounted route), then a missing
      profile is a 404 asking for one, then no matching slot a 400. None of
      them writes. */
  lemma CreateChecksInOrder(s: State, caller: UserId, req: BookRequest, save: SaveOutcome)
    ensures req.doctorId.None? || !DateTruthy(req.date) || !Truthy(req.time) ==>
      CreateStep(s, caller, req, save) == Step(s, BadRequest(MissingFields, false))
    ensures (&& req.doctorId.Some? && DateTruthy(req.date) && Truthy(req.time) && req.doctorId.value !in s.doctors) ==>
      CreateStep(s, caller, req, save) == Step(s, NotFound(DoctorMissing, false))
    ensures (&& req.doctorId.Some? && DateTruthy(req.date) && Truthy(req.time) && req.doctorId.value in s.doctors
             && caller !in s.patients) ==>
      CreateStep(s, caller, req, save) == Step(s, NotFound(ProfileMissing, true))
    ensures !CreateStep(s, caller, req, save).reply.Ok? && !CreateStep(s, caller, req, save).reply.ServerError? ==>
      CreateStep(s, caller, req, save).state == s
  {
  }

  /** A successful booking stores a pending appointment with the doctor's
      fee, the requested date and time and the reason or "", under a fresh
      id, and flips exactly the first bookable slot of that day and time. */
  lemma CreateSuccess(s: State, caller: UserId, req: BookRequest, save: SaveOutcome)
    requires Consistent(s)
    requires CreateStep(s, caller, req, save).reply.Ok?
    ensures caller in s.patients && req.doctorId.Some? && req.doctorId.value in s.doctors && req.date.At? && req.time.Some?
    ensures var r := CreateStep(s, caller, req, save);
      var did := req.doctorId.value;
      var d := s.doctors[did];
      var slots := d.availableSlots;
      var k := BookableIn(slots, DayKey(req.date.t), req.time);
      && r.reply.value !in s.appointments
      && r.state.appointments == s.appointments[r.reply.value :=
           Appointment(did, s.patients[caller].id, req.date.t, req.time.value, d.fees,
                       Some(if Truthy(req.reason) then req.reason.value else ""), Pending, None, None)]
      && k.Some? && Bookable(slots[k.value], DayKey(req.date.t), req.time)
      && (forall j :: 0 <= j < k.value ==> !Bookable(slots[j], DayKey(req.date.t), req.time))
      && r.state.doctors == s.doctors[did := d.(availableSlots := SetAvailable(slots, k.value, false))]
      && r.state.patients == s.patients && r.state.users == s.users
  {
    BookableInIsFirstMatch(s.doctors[req.doctorId.value].availableSlots, DayKey(req.date.t), req.time);
  }

  /** The controller saves the doctor first: when the appointment's save then
      fails, the slot is taken although no appointment holds it, and a
      later identical booking is refused. */
  lemma CreatePartialWriteOrphansSlot(s: State, caller: UserId, req: BookRequest)
    requires CreateStep(s, caller, req, AllSaved).reply.Ok?
    ensures var r := CreateStep(s, caller, req, SecondSaveFails);
      && r.reply == ServerError
      && r.state.appointments == s.appointments
      && r.state.doctors == CreateStep(s, caller, req, AllSaved).state.doctors
      && BookableIn(r.state.doctors[req.doctorId.value].availableSlots, DayKey(req.date.t), req.time)
         != BookableIn(s.doctors[req.doctorId.value].availableSlots, DayKey(req.date.t), req.time)
  {
    TakenSlotNotOfferedAgain(s.doctors[req.doctorId.value].availableSlots, DayKey(req.date.t), req.time);
  }

  // --------------------------------------------------------- cancelAppointment

  /** `cancelAppointment`: 404 and 403 only, with no status guard. The first
      slot of that doctor with the same day and time is released and the
      doctor saved, and only then is the status set to cancelled and saved. */
  function CancelStep(s: State, caller: UserId, id: AppointmentId, save: SaveOutcome): Step<Appointment> {
    if id !in s.appointments then Step(s, NotFound(AppointmentMissing, false))
    else
      var a := s.appointments[id];
      if !Owns(s, caller, a) then Step(s, Forbidden(NotOwner))
      else
        var cancelled := a.(status := Cancelled);
        if a.doctorId !in s.doctors then Step(s.(appointments := s.appointments[id := cancelled]), Ok(cancelled))
        else
          var d := s.doctors[a.doctorId];
          match ReleaseTarget(d.availableSlots, DayKey(a.date), a.time)
          case None => Step(s.(appointments := s.appointments[id := cancelled]), Ok(cancelled))
          case Some(k) =>
            var released := s.(doctors := s.doctors[a.doctorId := d.(availableSlots := SetAvailable(d.availableSlots, k, true))]);
            if save.SecondSaveFails? then Step(released, ServerError)
            else Step(released.(appointments := s.appointments[id := cancelled]), Ok(cancelled))
  }

  method CancelAppointment(db: Db, caller: UserId, id: AppointmentId, save: SaveOutcome) returns (r: Reply<Appointment>)
    modifies db
    ensures Step(db.Snapshot(), r) == CancelStep(old(db.Snapshot()), caller, id, save)
  {
    if id !in db.appointments {
      return NotFound(AppointmentMissing, false);
    }
    var a := db.appointments[id];
    if !(caller in db.patients && db.patients[caller].id == a.patientId) {
      return Forbidden(NotOwner);
    }
    if a.doctorId in db.doctors {
      var d := db.doctors[a.doctorId];
      var found := ReleaseTarget(d.availableSlots, DayKey(a.date), a.time);
      if found.Some? {
        db.doctors := db.doctors[a.doctorId := d.(availableSlots := SetAvailable(d.availableSlots, found.value, true))];
        if save == SecondSaveFails {
          return ServerError;
        }
      }
    }
    var cancelled := a.(status := Cancelled);
    db.appointments := db.appointments[id := cancelled];
    r := Ok(cancelled);
  }

  /** Only the two guards refuse: any owned appointment, pending, paid or
      already cancelled, ends up cancelled, and cancelling twice leaves the
      same store as cancelling once. */
  lemma CancelHasNoStatusGuard(s: State, caller: UserId, id: AppointmentId)
    ensures var r := CancelStep(s, caller, id, AllSaved);
      && (r.reply.Ok? <==> id in s.appointments && Owns(s, caller, s.appointments[id]))
      && (r.reply.Ok? ==> r.state.appointments == s.appointments[id := s.appointments[id].(status := Cancelled)])
      && (!r.reply.Ok? ==> r.state == s)
    ensures var s1 := CancelStep(s, caller, id, AllSaved).state;
      CancelStep(s1, caller, id, AllSaved).state == s1
  {
    var r := CancelStep(s, caller, id, AllSaved);
    if r.reply.Ok? {
      var a := s.appointments[id];
      var s1 := r.state;
      if a.doctorId in s.doctors {
        var slots := s.doctors[a.doctorId].availableSlots;
        var t := ReleaseTarget(slots, DayKey(a.date), a.time);
        if t.Some? {
          var after := SetAvailable(slots, t.value, true);
          var p := (sl: Slot) => SameSlot(sl, DayKey(a.date), a.time);
          assert p(slots[t.value]);
          forall j | 0 <= j < t.value ensures !p(after[j]) {
            assert !p(slots[j]);
          }
          FindFirstIs(after, p, t.value);
          assert SetAvailable(after, t.value, true) == after;
        }
      }
    }
  }

  /** A cancel that succeeds, whatever the appointment's status, sets it
      cancelled and makes the doctor's first slot with that day and time
      available, keeping every other slot; with no doctor or no such slot only
      the status changes. Profiles, accounts and other doctors are kept. */
  lemma CancelReleasesFirstMatch(s: State, caller: UserId, id: AppointmentId)
    requires id in s.appointments && Owns(s, caller, s.appointments[id])
    ensures var a := s.appointments[id];
      var r := CancelStep(s, caller, id, AllSaved);
      && r.reply == Ok(a.(status := Cancelled))
      && r.state.appointments == s.appointments[id := a.(status := Cancelled)]
      && r.state.patients == s.patients && r.state.users == s.users && r.state.nextId == s.nextId
      && r.state.doctors.Keys == s.doctors.Keys
      && (forall e :: e in s.doctors && e != a.doctorId ==> r.state.doctors[e] == s.doctors[e])
      && (a.doctorId !in s.doctors || ReleaseTarget(s.doctors[a.doctorId].availableSlots, DayKey(a.date), a.time).None?
          ==> r.state.doctors == s.doctors)
      && (a.doctorId in s.doctors ==>
          var slots := s.doctors[a.doctorId].availableSlots;
          var after := r.state.doctors[a.doctorId].availableSlots;
          && |after| == |slots|
          && (forall j :: 0 <= j < |slots| ==> after[j].date == slots[j].date && after[j].time == slots[j].time)
          && match ReleaseTarget(slots, DayKey(a.date), a.time)
             case None => after == slots
             case Some(k) =>
               && SameSlot(slots[k], DayKey(a.date), a.time) && after[k].isAvailable
               && (forall j :: 0 <= j < k ==> !SameSlot(slots[j], DayKey(a.date), a.time))
               && (forall j :: 0 <= j < |slots| && j != k ==> after[j] == slots[j]))
  {
    var a := s.appointments[id];
    if a.doctorId in s.doctors {
      var slots := s.doctors[a.doctorId].availableSlots;
      var t := ReleaseTarget(slots, DayKey(a.date), a.time);
      if t.Some? {
        var p := (sl: Slot) => SameSlot(sl, DayKey(a.date), a.time);
        assert p(slots[t.value]);
      }
    }
  }

  /** The controller releases the slot first: when the status save then
      fails, the slot is free again while the appointment still stands. */
  lemma CancelPartialWriteFreesHeldSlot(s: State, caller: UserId, id: AppointmentId)
    requires id in s.appointments && Owns(s, caller, s.appointments[id])
    requires s.appointments[id].doctorId in s.doctors
    requires ReleaseTarget(s.doctors[s.appointments[id].doctorId].availableSlots,
                           DayKey(s.appointments[id].date), s.appointments[id].time).Some?
    ensures var a := s.appointments[id];
      var r := CancelStep(s, caller, id, SecondSaveFails);
      var k := ReleaseTarget(s.doctors[a.doctorId].availableSlots, DayKey(a.date), a.time).value;
      && r.reply == ServerError
      && r.state.appointments == s.appointments
      && k < |r.state.doctors[a.doctorId].availableSlots|
      && r.state.doctors[a.doctorId].availableSlots[k].isAvailable
  {
  }

  // --------------------------------------------------------- getMyAppointments

  /** The controller's 24-hour window: a cancelled appointment whose
      `updatedAt` lies more than a day before `now`. A document without
      `updatedAt` matches neither `$lt` nor `$gte`. */
  predicate Stale(a: Appointment, now: Instant) {
    a.status == Cancelled && a.updatedAt.Some? && a.updatedAt.value < now - DayMs
  }

  /** What the listing query matches: not cancelled, or cancelled with an
      `updatedAt` within the last day. */
  predicate Shown(a: Appointment, now: Instant) {
    a.status != Cancelled || (a.updatedAt.Some? && a.updatedAt.value >= now - DayMs)
  }

  /** The `deleteMany` of stale cancelled appointments of one patient. */
  function Prune(s: State, pid: PatientId, now: Instant): State {
    s.(appointments := map id | id in s.appointments && !(s.appointments[id].patientId == pid && Stale(s.appointments[id], now))
                                :: s.appointments[id])
  }

  /** The listing query's matches for one patient. Unlike the mounted route,
      entries whose doctor is gone are kept. */
  function Visible(s: State, pid: PatientId, now: Instant): set<AppointmentId> {
    set id | id in s.appointments && s.appointments[id].patientId == pid && Shown(s.appointments[id], now)
  }

  /** `getMyAppointments` at time `now`: 404 asking for a profile, otherwise
      the prune and then the caller's visible appointments, newest date first. */
  method GetMyAppointments(db: Db, caller: UserId, now: Instant) returns (r: Reply<seq<AppointmentId>>)
    modifies db
    ensures caller !in old(db.patients) ==> r == NotFound(ProfileMissing, true) && db.Snapshot() == old(db.Snapshot())
    ensures caller in old(db.patients) ==>
      && db.Snapshot() == Prune(old(db.Snapshot()), old(db.patients)[caller].id, now)
      && r.Ok? && ListsExactly(r.value, Visible(db.Snapshot(), db.patients[caller].id, now))
      && (forall i :: 0 <= i < |r.value| ==> r.value[i] in db.appointments)
      && NewestFirst(db.appointments, r.value)
  {
    if caller !in db.patients {
      return NotFound(ProfileMissing, true);
    }
    var pid := db.patients[caller].id;
    db.appointments := Prune(db.Snapshot(), pid, now).appointments;
    var ids := SortNewestFirst(db.appointments, Visible(db.Snapshot(), pid, now));
    r := Ok(ids);
  }

  /** Pruning removes exactly the caller's stale cancelled appointments, and
      the list then holds every remaining appointment of the caller that is
      not cancelled or was cancelled within the day, and nothing else. */
  lemma PruneAndListing(s: State, pid: PatientId, now: Instant)
    ensures var p := Prune(s, pid, now);
      && p.doctors == s.doctors && p.patients == s.patients && p.users == s.users && p.nextId == s.nextId
      && (forall id :: id in p.appointments <==>
            id in s.appointments && !(s.appointments[id].patientId == pid && Stale(s.appointments[id], now)))
      && (forall id :: id in p.appointments ==> p.appointments[id] == s.appointments[id])
      && (forall id :: id in Visible(p, pid, now) <==>
            id in s.appointments && s.appointments[id].patientId == pid && Shown(s.appointments[id], now))
  {
  }

  /** No write of this back end sets `updatedAt`, as the schema has no
      timestamps. Then the prune deletes nothing, and the listing never
      shows a cancelled appointment: cancelled ones stay in the store but
      disappear from the list at once rather than after a day. */
  lemma WithoutTimestampsCancelledVanishAtOnce(s: State, pid: PatientId, now: Instant)
    requires forall id :: id in s.appointments ==> s.appointments[id].updatedAt.None?
    ensures Prune(s, pid, now) == s
    ensures forall id :: id in Visible(s, pid, now) <==>
      id in s.appointments && s.appointments[id].patientId == pid && s.appointments[id].status != Cancelled
  {
    assert Prune(s, pid, now).appointments == s.appointments;
  }

  // ------------------------------------------------------- createRazorpayOrder

  /** `createRazorpayOrder`: 404, 403, 400 unless pending; the order carries
      the fee in paise, in rupees, and notes naming the appointment. */
  function CreateRazorpayOrder(s: State, caller: UserId, id: Option<AppointmentId>): Reply<OrderRequest> {
    if id.None? || id.value !in s.appointments then NotFound(AppointmentMissing, false)
    else
      var a := s.appointments[id.value];
      if !Owns(s, caller, a) then Forbidden(NotOwner)
      else if a.status != Pending then BadRequest(NotPending, false)
      else Ok(OrderRequest(a.fees * 100, "INR", id.value, Some(id.value)))
  }

  /** An order is made exactly for an owned pending appointment; its notes
      name that appointment, which is what lets the webhook find it again. */
  lemma OrderNotesNameAppointment(s: State, caller: UserId, id: Option<AppointmentId>)
    ensures var r := CreateRazorpayOrder(s, caller, id);
      && (r.Ok? <==> id.Some? && id.value in s.appointments && Owns(s, caller, s.appointments[id.value])
                     && s.appointments[id.value].status == Pending)
      && (r.Ok? ==> r.value.notes == Some(id.value) && r.value.receiptFor == id.value
                    && r.value.amount == s.appointments[id.value].fees * 100 && r.value.currency == "INR")
  {
  }

  // ------------------------------------------------------------- handleWebhook

  /** A webhook delivery: the raw body the signature covers, the event name,
      and the order and payment ids of the payment entity. */
  datatype Webhook = Webhook(body: string, event: string, orderId: string, paymentId: string)

  /** `handleWebhook`. `sign` is the HMAC with the webhook secret and
      `orderNotes` the gateway's order fetch, giving the appointment id in the
      order's notes. Only `payment.captured` writes; an unknown appointment
      still gets a 200. */
  function WebhookStep(s: State, w: Webhook, signature: string, sign: string -> string,
                       orderNotes: string -> Option<AppointmentId>): Step<()> {
    if sign(w.body) != signature then Step(s, BadRequest(BadSignature, false))
    else if w.event != "payment.captured" then Step(s, Ok(()))
    else match orderNotes(w.orderId)
      case Some(id) =>
        if id in s.appointments then
          Step(s.(appointments := s.appointments[id := s.appointments[id].(status := Paid, paymentId := Some(w.paymentId))]), Ok(()))
        else Step(s, Ok(()))
      case None => Step(s, Ok(()))
  }

  method HandleWebhook(db: Db, w: Webhook, signature: string, sign: string -> string,
                       orderNotes: string -> Option<AppointmentId>) returns (r: Reply<()>)
    modifies db
    ensures Step(db.Snapshot(), r) == WebhookStep(old(db.Snapshot()), w, signature, sign, orderNotes)
  {
    if sign(w.body) != signature {
      return BadRequest(BadSignature, false);
    }
    r := Ok(());
    if w.event == "payment.captured" {
      var target := orderNotes(w.orderId);
      if target.Some? && target.value in db.appointments {
        var id := target.value;
        db.appointments := db.appointments[id := db.appointments[id].(status := Paid, paymentId := Some(w.paymentId))];
      }
    }
  }

  /** A bad signature is a 400 and writes nothing; a good one is always
      answered 200, and only a captured payment for a known appointment
      changes anything: that appointment becomes paid with the payment id. */
  lemma WebhookEffect(s: State, w: Webhook, signature: string, sign: string -> string,
                      orderNotes: string -> Option<AppointmentId>)
    ensures var r := WebhookStep(s, w, signature, sign, orderNotes);
      && (sign(w.body) != signature <==> r.reply == BadRequest(BadSignature, false))
      && (sign(w.body) == signature ==> r.reply == Ok(()))
      && (r.state != s ==> w.event == "payment.captured" && orderNotes(w.orderId).Some?
                           && orderNotes(w.orderId).value in s.appointments)
      && (r.state != s ==>
            var id := orderNotes(w.orderId).value;
            r.state == s.(appointments := s.appointments[id := s.appointments[id].(status := Paid, paymentId := Some(w.paymentId))]))
  {
  }

  /** The gateway may deliver an event more than once: a second delivery of
      the same event changes nothing further. */
  lemma WebhookRedeliveryIsHarmless(s: State, w: Webhook, signature: string, sign: string -> string,
                                    orderNotes: string -> Option<AppointmentId>)
    ensures var s1 := WebhookStep(s, w, signature, sign, orderNotes).state;
      WebhookStep(s1, w, signature, sign, orderNotes) == Step(s1, WebhookStep(s, w, signature, sign, orderNotes).reply)
  {
    var s1 := WebhookStep(s, w, signature, sign, orderNotes).state;
    if sign(w.body) == signature && w.event == "payment.captured" && orderNotes(w.orderId).Some? {
      var id := orderNotes(w.orderId).value;
      if id in s.appointments {
        var paid := s.appointments[id].(status := Paid, paymentId := Some(w.paymentId));
        assert s1.appointments[id] == paid;
        assert paid.(status := Paid, paymentId := Some(w.paymentId)) == paid;
        assert s1.appointments[id := paid] == s1.appointments;
      }
    }
  }

  // ------------------------------------------------------------- verifyPayment

  /** `verifyPayment`: the signature, then the caller's profile (404), then
      an update of the appointment with that id that also belongs to the
      caller, with no status condition; no such appointment is a 404. */
  function VerifyStep(s: State, caller: UserId, p: PaymentProof, sign: string -> string): Step<Appointment> {
    if sign(SignedText(p)) != p.signature then Step(s, BadRequest(BadSignature, false))
    else if caller !in s.patients then Step(s, NotFound(ProfileMissing, false))
    else if p.appointmentId.None? || p.appointmentId.value !in s.appointments
         || s.appointments[p.appointmentId.value].patientId != s.patients[caller].id then
      Step(s, NotFound(AppointmentMissing, false))
    else
      var id := p.appointmentId.value;
      var paid := s.appointments[id].(status := Paid, paymentId := Some(p.paymentId));
      Step(s.(appointments := s.appointments[id := paid]), Ok(paid))
  }

  method VerifyPayment(db: Db, caller: UserId, p: PaymentProof, sign: string -> string) returns (r: Reply<Appointment>)
    modifies db
    ensures Step(db.Snapshot(), r) == VerifyStep(old(db.Snapshot()), caller, p, sign)
  {
    if sign(SignedText(p)) != p.signature {
      return BadRequest(BadSignature, false);
    }
    if caller !in db.patients {
      return NotFound(ProfileMissing, false);
    }
    var pid := db.patients[caller].id;
    if p.appointmentId.None? || p.appointmentId.value !in db.appointments || db.appointments[p.appointmentId.value].patientId != pid {
      return NotFound(AppointmentMissing, false);
    }
    var id := p.appointmentId.value;
    var paid := db.appointments[id].(status := Paid, paymentId := Some(p.paymentId));
    db.appointments := db.appointments[id := paid];
    r := Ok(paid);
  }

  /** Only the owner's appointment can be marked paid here, whatever its
      status was before, and a refusal writes nothing. */
  lemma VerifyOnlyOwnAppointment(s: State, caller: UserId, p: PaymentProof, sign: string -> string)
    ensures var r := VerifyStep(s, caller, p, sign);
      && (r.reply.Ok? <==> sign(SignedText(p)) == p.signature && p.appointmentId.Some?
                           && p.appointmentId.value in s.appointments && Owns(s, caller, s.appointments[p.appointmentId.value]))
      && (!r.reply.Ok? ==> r.state == s)
      && (r.reply.Ok? ==>
            var id := p.appointmentId.value;
            && r.reply.value.status == Paid && r.reply.value.paymentId == Some(p.paymentId)
            && r.reply.value == s.appointments[id].(status := Paid, paymentId := Some(p.paymentId))
            && r.state == s.(appointments := s.appointments[id := r.reply.value]))
  {
  }
}
