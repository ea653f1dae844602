/** The four Mongoose schemas of the back end (`models/Appointment.js`,
    `models/Doctor.js`, `models/Patient.js`, `models/User.js`) as records.
    A required field is a field that is not an `Option`; an optional one is an
    `Option`; an enum is a datatype with its parse and print functions, the
    parse function being the check Mongoose runs when a document is saved. */
module Models {
  import opened Common

  type DoctorId = nat
  type AppointmentId = nat
  type PatientId = nat
  type UserId = nat

  /** Mongoose's `default`: the default applies only when the field is not
      given at all (an empty string is kept). */
  function WithDefault<T>(given: Option<T>, default: T): (r: T)
    ensures given.Some? ==> r == given.value
    ensures given.None? ==> r == default
  {
    if given.Some? then given.value else default
  }

  // ---------------------------------------------------------------- Appointment

  /** `status`: enum pending | paid | cancelled. */
  datatype AppointmentStatus = Pending | Paid | Cancelled

  function StatusName(st: AppointmentStatus): string {
    match st
    case Pending => "pending"
    case Paid => "paid"
    case Cancelled => "cancelled"
  }

  /** The enum check on `status`: exactly the three names are accepted. */
  function ParseStatus(s: string): (r: Option<AppointmentStatus>)
    ensures r.Some? ==> StatusName(r.value) == s
    ensures r.None? <==> s != "pending" && s != "paid" && s != "cancelled"
  {
    if s == "pending" then Some(Pending)
    else if s == "paid" then Some(Paid)
    else if s == "cancelled" then Some(Cancelled)
    else None
  }

  lemma StatusRoundTrip(st: AppointmentStatus)
    ensures ParseStatus(StatusName(st)) == Some(st)
  {
  }

  /** An appointment document. `reason` and `paymentId` are optional. The
      schema declares no `timestamps` option, so `updatedAt` is never written
      by this code; it is kept because the controller's 24-hour queries
      filter on it. */
  datatype Appointment = Appointment(
    doctorId: DoctorId,
    patientId: PatientId,
    date: Instant,
    time: string,
    fees: int,
    reason: Option<string>,
    status: AppointmentStatus,
    paymentId: Option<string>,
    updatedAt: Option<Instant>)

  /** `new Appointment({...})` with the required fields, an optional reason
      and no status given: the status takes its default, and nothing records
      a payment or a timestamp. */
  function NewAppointment(doctorId: DoctorId, patientId: PatientId, date: Instant, time: string,
                          fees: int, reason: Option<string>): (a: Appointment)
    ensures a.status == Pending
    ensures a.paymentId.None? && a.updatedAt.None?
    ensures a.doctorId == doctorId && a.patientId == patientId && a.date == date
    ensures a.time == time && a.fees == fees && a.reason == reason
  {
    Appointment(doctorId, patientId, date, time, fees, reason, Pending, None, None)
  }

  // --------------------------------------------------------------------- Doctor

  /** One entry of `availableSlots`: `date` and `time` are required. */
  datatype Slot = Slot(date: Instant, time: string, isAvailable: bool)

  /** A slot sub-document as Mongoose builds it: `isAvailable` defaults to true. */
  function NewSlot(date: Instant, time: string, isAvailable: Option<bool>): (s: Slot)
    ensures s.date == date && s.time == time
    ensures isAvailable.None? ==> s.isAvailable
    ensures isAvailable.Some? ==> s.isAvailable == isAvailable.value
  {
    Slot(date, time, WithDefault(isAvailable, true))
  }

  /** A doctor document with its embedded slot sequence. */
  datatype Doctor = Doctor(
    name: string,
    speciality: string,
    degree: string,
    experience: string,
    image: string,
    about: string,
    fees: int,
    availableSlots: seq<Slot>)

  /** `new Doctor({...})`: `image` and `about` default to "". */
  function NewDoctor(name: string, speciality: string, degree: string, experience: string,
                     image: Option<string>, about: Option<string>, fees: int, slots: seq<Slot>): (d: Doctor)
    ensures image.None? ==> d.image == ""
    ensures about.None? ==> d.about == ""
    ensures image.Some? ==> d.image == image.value
    ensures about.Some? ==> d.about == about.value
    ensures d.name == name && d.speciality == speciality && d.fees == fees && d.availableSlots == slots
  {
    Doctor(name, speciality, degree, experience, WithDefault(image, ""), WithDefault(about, ""), fees, slots)
  }

  /** What a save of a doctor accepts: Mongoose's `required` refuses an empty
      string, so the five required fields and every slot's time are non-empty. */
  predicate DoctorSaveable(d: Doctor) {
    && d.name != "" && d.speciality != "" && d.degree != "" && d.experience != ""
    && forall i :: 0 <= i < |d.availableSlots| ==> d.availableSlots[i].time != ""
  }

  // -------------------------------------------------------------------- Patient

  /** `gender`: enum male | female | other | "". */
  datatype Gender = Male | Female | Other | Unstated

  function GenderName(g: Gender): string {
    match g
    case Male => "male"
    case Female => "female"
    case Other => "other"
    case Unstated => ""
  }

  /** The enum check on `gender`. */
  function ParseGender(s: string): (r: Option<Gender>)
    ensures r.Some? ==> GenderName(r.value) == s
    ensures r.None? <==> s != "male" && s != "female" && s != "other" && s != ""
  {
    if s == "male" then Some(Male)
    else if s == "female" then Some(Female)
    else if s == "other" then Some(Other)
    else if s == "" then Some(Unstated)
    else None
  }

  lemma GenderRoundTrip(g: Gender)
    ensures ParseGender(GenderName(g)) == Some(g)
  {
  }

  /** A patient profile. Everything but the identity is optional and
      `bloodGroup` is unconstrained; the identity key itself is the key of the
      store's profile map (one profile per user). `id` is the profile's own
      document id, the one appointments and `User.profileId` refer to.
      `gender` is kept as the stored string, because an update that skips
      validation can store any string there. */
  datatype Patient = Patient(
    id: PatientId,
    name: Option<string>,
    email: Option<string>,
    phone: Option<string>,
    address: Option<string>,
    gender: Option<string>,
    dob: Option<Instant>,
    bloodGroup: Option<string>)

  /** The check a save runs on a `gender` it writes. */
  predicate GenderAccepted(g: Option<string>) {
    g.None? || ParseGender(g.value).Some?
  }

  /** The profile fields a request body carries, each possibly missing; the
      date of birth as the body's date string is seen by `new Date`. */
  datatype ProfileForm = ProfileForm(
    name: Option<string>,
    email: Option<string>,
    phone: Option<string>,
    address: Option<string>,
    gender: Option<string>,
    dob: DateInput,
    bloodGroup: Option<string>)

  // ----------------------------------------------------------------------- User

  /** `role`: enum patient | doctor, required. */
  datatype Role = PatientRole | DoctorRole

  function RoleName(r: Role): string {
    match r
    case PatientRole => "patient"
    case DoctorRole => "doctor"
  }

  function ParseRole(s: string): (r: Option<Role>)
    ensures r.Some? ==> RoleName(r.value) == s
    ensures r.None? <==> s != "patient" && s != "doctor"
  {
    if s == "patient" then Some(PatientRole) else if s == "doctor" then Some(DoctorRole) else None
  }

  lemma RoleRoundTrip(r: Role)
    ensures ParseRole(RoleName(r)) == Some(r)
  {
  }

  /** A user account: `name`, `email` (unique across users, enforced by the
      store) and `password` required, `role` required, `profileId` optional. */
  datatype User = User(name: string, email: string, password: string, role: Role, profileId: Option<PatientId>)

  /** `new User({name, email, password, role})` followed by the validation of
      `save`: a missing or empty required field, or a role outside the enum,
      makes the save fail. A new user has no profile yet. */
  function NewUser(name: Option<string>, email: Option<string>, password: Option<string>, role: string): (r: Option<User>)
    ensures r.Some? <==> Truthy(name) && Truthy(email) && Truthy(password) && ParseRole(role).Some?
    ensures r.Some? ==> r.value == User(name.value, email.value, password.value, ParseRole(role).value, None)
  {
    if Truthy(name) && Truthy(email) && Truthy(password) && ParseRole(role).Some? then
      Some(User(name.value, email.value, password.value, ParseRole(role).value, None))
    else
      None
  }
}
