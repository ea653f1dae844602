/** The four collections the back end reads and writes, as one in-memory
    store, together with the replies its handlers send. Each handler is a
    pure step function from a store value to the next store value and a
    reply, and an imperative method that performs the same step on a `Db`
    object in place. */
module Store {
  import opened Common
  import opened Models

  /** The collections: doctors and appointments by document id, patient
      profiles and user accounts by user id (one profile per user), and the
      counter from which fresh document ids are drawn. */
  datatype State = State(
    doctors: map<DoctorId, Doctor>,
    appointments: map<AppointmentId, Appointment>,
    patients: map<UserId, Patient>,
    users: map<UserId, User>,
    nextId: nat)

  /** What the database guarantees: every id handed out so far is below the
      counter, profile ids are distinct, and the unique index on `email`
      holds across users. */
  ghost predicate Consistent(s: State) {
    && (forall id :: id in s.appointments ==> id < s.nextId)
    && (forall u :: u in s.users ==> u < s.nextId)
    && (forall u :: u in s.patients ==> s.patients[u].id < s.nextId)
    && (forall u, v :: u in s.patients && v in s.patients && u != v ==> s.patients[u].id != s.patients[v].id)
    && (forall u, v :: u in s.users && v in s.users && u != v ==> s.users[u].email != s.users[v].email)
  }

  /** Why a handler refused, one value per distinct error message. */
  datatype Why =
    | ProfileMissing       // "Patient profile not found"
    | DoctorMissing        // "Doctor not found"
    | SlotTaken            // "Selected time slot is not available"
    | AppointmentMissing   // "Appointment not found"
    | NotOwner             // "Not authorized"
    | AlreadyCancelled     // "Appointment already cancelled"
    | NotPending           // "Appointment is not in pending status"
    | BadSignature         // "Invalid payment signature" / "Invalid signature"
    | MissingFields        // "Please provide all required fields"
    | NameEmailRequired    // "Name and email are required"
    | BadPhone             // "Phone number must be 10 digits"
    | BadDob               // "Invalid date of birth"
    | BadBloodGroup        // "Invalid blood group"
    | BadGender            // "Invalid gender"
    | AccessDenied         // "Access denied"
    | EmailRegistered      // "User already exists with this email"
    | InvalidCredentials   // "Invalid credentials"
    | EmailInUse           // "Email already in use"
    | UserMissing          // "User not found"

  /** An HTTP reply: 2xx with a value, 400, 403, 404 (the two carrying the
      `requiresProfile` flag some handlers add) or 500. */
  datatype Reply<+T> =
    | Ok(value: T)
    | BadRequest(why: Why, requiresProfile: bool)
    | Forbidden(why: Why)
    | NotFound(why: Why, requiresProfile: bool)
    | ServerError

  /** The store after a handler ran, and its reply. */
  datatype Step<+T> = Step(state: State, reply: Reply<T>)

  /** Whether the second of the two saves a handler issues goes through. A
      handler awaits its saves one after the other, so when the second one
      throws the first one has already been written and the reply is a 500. */
  datatype SaveOutcome = AllSaved | SecondSaveFails

  /** The order a handler asks the payment gateway to create: the amount in
      paise, the currency, the appointment the receipt names and, when the
      handler sets them, the order notes naming the appointment. */
  datatype OrderRequest = OrderRequest(amount: int, currency: string, receiptFor: AppointmentId, notes: Option<AppointmentId>)

  /** What the payment page posts back: the gateway's order and payment ids,
      its signature, and the appointment being paid for. */
  datatype PaymentProof = PaymentProof(orderId: string, paymentId: string, signature: string, appointmentId: Option<AppointmentId>)

  /** The text the gateway signs for a payment: `order_id + "|" + payment_id`. */
  function SignedText(p: PaymentProof): string {
    p.orderId + "|" + p.paymentId
  }

  /** The ownership check of the appointment handlers: the caller has a
      profile and it is the appointment's patient. */
  predicate Owns(s: State, caller: UserId, a: Appointment) {
    caller in s.patients && s.patients[caller].id == a.patientId
  }

  /** A fresh document id: one the store has never handed out. */
  lemma FreshIdIsUnused(s: State)
    requires Consistent(s)
    ensures s.nextId !in s.appointments && s.nextId !in s.users
    ensures forall u :: u in s.patients ==> s.patients[u].id != s.nextId
  {
  }

  /** The ids listed are exactly `ids`, each once. */
  predicate ListsExactly(r: seq<AppointmentId>, ids: set<AppointmentId>) {
    && (forall i, j :: 0 <= i < j < |r| ==> r[i] != r[j])
    && (forall i :: 0 <= i < |r| ==> r[i] in ids)
    && (forall x :: x in ids ==> x in r)
  }

  /** `.sort({ date: -1 })`: later dates first. */
  predicate NewestFirst(appts: map<AppointmentId, Appointment>, r: seq<AppointmentId>)
    requires forall i :: 0 <= i < |r| ==> r[i] in appts
  {
    forall i, j :: 0 <= i < j < |r| ==> appts[r[i]].date >= appts[r[j]].date
  }

  /** A non-empty set of appointments has a latest one. */
  lemma HasLatest(appts: map<AppointmentId, Appointment>, left: set<AppointmentId>)
    requires left != {} && left <= appts.Keys
    ensures exists m :: m in left && forall y :: y in left ==> appts[y].date <= appts[m].date
  {
    var x :| x in left;
    if left != {x} {
      HasLatest(appts, left - {x});
      var m :| m in left - {x} && forall y :: y in left - {x} ==> appts[y].date <= appts[m].date;
      if appts[x].date > appts[m].date {
        assert forall y :: y in left ==> appts[y].date <= appts[x].date;
      } else {
        assert forall y :: y in left ==> appts[y].date <= appts[m].date;
      }
    } else {
      assert forall y :: y in left ==> appts[y].date <= appts[x].date;
    }
  }

  /** What the selection sort below has built so far: `r` lists, newest
      first and each once, the ids of `ids` no longer in `left`, and none
      of them is older than an id still to place. */
  predicate SortedPrefix(appts: map<AppointmentId, Appointment>, ids: set<AppointmentId>,
                         r: seq<AppointmentId>, left: set<AppointmentId>)
    requires ids <= appts.Keys
  {
    && left <= ids
    && (forall x :: x in r ==> x in ids && x !in left)
    && (forall x :: x in ids ==> x in r || x in left)
    && (forall i, j :: 0 <= i < j < |r| ==> r[i] != r[j])
    && (forall i :: 0 <= i < |r| ==> r[i] in appts)
    && NewestFirst(appts, r)
    && (forall i, y :: 0 <= i < |r| && y in left ==> appts[y].date <= appts[r[i]].date)
  }

  /** Placing a latest id of those left keeps the prefix sorted. */
  lemma PlaceLatest(appts: map<AppointmentId, Appointment>, ids: set<AppointmentId>,
                    r: seq<AppointmentId>, left: set<AppointmentId>, m: AppointmentId)
    requires ids <= appts.Keys && SortedPrefix(appts, ids, r, left)
    requires m in left && forall y :: y in left ==> appts[y].date <= appts[m].date
    ensures SortedPrefix(appts, ids, r + [m], left - {m})
  {
    var r1 := r + [m];
    assert forall i :: 0 <= i < |r| ==> r1[i] == r[i];
    assert forall x :: x in r1 ==> x in r || x == m;
  }

  /** The result of a query for `ids`, sorted newest date first. Equal dates
      come out in no particular order, as in the database. */
  method SortNewestFirst(appts: map<AppointmentId, Appointment>, ids: set<AppointmentId>)
    returns (r: seq<AppointmentId>)
    requires ids <= appts.Keys
    ensures ListsExactly(r, ids)
    ensures forall i :: 0 <= i < |r| ==> r[i] in appts
    ensures NewestFirst(appts, r)
  {
    r := [];
    var left := ids;
    while left != {}
      invariant SortedPrefix(appts, ids, r, left)
      decreases |left|
    {
      HasLatest(appts, left);
      var m :| m in left && forall y :: y in left ==> appts[y].date <= appts[m].date;
      PlaceLatest(appts, ids, r, left, m);
      r := r + [m];
      left := left - {m};
    }
  }

  /** The database, updated in place by the handlers. */
  class Db {
    var doctors: map<DoctorId, Doctor>
    var appointments: map<AppointmentId, Appointment>
    var patients: map<UserId, Patient>
    var users: map<UserId, User>
    var nextId: nat

    /** The current contents as a value. */
    function Snapshot(): (s: State)
      reads this
    {
      State(doctors, appointments, patients, users, nextId)
    }

    constructor (s: State)
      ensures Snapshot() == s
    {
      doctors := s.doctors;
      appointments := s.appointments;
      patients := s.patients;
      users := s.users;
      nextId := s.nextId;
    }
  }
}
