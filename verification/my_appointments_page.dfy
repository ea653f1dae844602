/** The appointment list page (`pages/MyAppointments.jsx`): loading the
    list, the local updates after a cancel and after a verified payment, and
    which rows offer the cancel and pay actions. */
module MyAppointmentsPage {
  import opened Common
  import opened Models
  import opened Store
  import opened AppointmentsRouter

  /** A listed appointment with its id. */
  datatype Row = Row(id: AppointmentId, appt: Appointment)

  /** The response body of the list request: an array, or anything else. */
  datatype Body = ArrayBody(rows: seq<Row>) | OtherBody

  /** The list request's outcome: a body, or an error status with the
      server's message if it sent one. */
  datatype Response = Answer(body: Body) | Failed(status: int, message: Option<string>)

  /** The page state: the rows, the error shown, the success message. */
  datatype Page = Page(rows: seq<Row>, error: Option<string>, success: Option<string>)

  /** What the page renders once loaded. */
  datatype View = ShowsError(message: string) | NoAppointments | Lists(rows: seq<Row>)

  /** `Array.isArray(response.data) ? response.data : []`. */
  function FromResponse(b: Body): (r: seq<Row>)
    ensures b.OtherBody? ==> r == []
    ensures b.ArrayBody? ==> r == b.rows
  {
    match b
    case ArrayBody(rows) => rows
    case OtherBody => []
  }

  /** `fetchAppointments`: without a token, an error and no rows; a failed
      request, an error (the profile hint for a 404) and no rows; otherwise
      the rows of an array body. */
  function Loaded(token: Option<string>, resp: Response): (p: Page)
    ensures !Truthy(token) ==> p.rows == [] && p.error == Some("Please sign in to view your appointments.")
    ensures Truthy(token) && resp.Answer? ==> p == Page(FromResponse(resp.body), None, None)
    ensures Truthy(token) && resp.Failed? ==> p.rows == [] && Truthy(p.error)
    ensures Truthy(token) && resp.Failed? && resp.status == 404 ==>
      p.error == Some("Please complete your profile to view appointments.")
  {
    if !Truthy(token) then Page([], Some("Please sign in to view your appointments."), None)
    else match resp
      case Answer(body) => Page(FromResponse(body), None, None)
      case Failed(status, message) =>
        if status == 404 then Page([], Some("Please complete your profile to view appointments."), None)
        else Page([], Some(OrElse(message, "Please Refresh the page or Please try again.")), None)
  }

  /** The array the route sends for a list of ids: each id with its
      appointment as stored. */
  function RowsOf(appts: map<AppointmentId, Appointment>, ids: seq<AppointmentId>): seq<Row>
    requires forall i :: 0 <= i < |ids| ==> ids[i] in appts
  {
    seq(|ids|, i requires 0 <= i < |ids| => Row(ids[i], appts[ids[i]]))
  }

  /** What a signed-in page shows for each answer of `GET /my-appointments`:
      for a list, exactly the listed appointments in the route's order, as
      the store holds them, or the empty-list notice when there are none;
      for the route's 404, the hint to complete the profile. Without a token
      it shows the sign-in error whatever the answer. */
  lemma LoadedShowsRouteAnswer(s: State, token: Option<string>, ids: seq<AppointmentId>, resp: Response)
    requires forall i :: 0 <= i < |ids| ==> ids[i] in s.appointments
    ensures Truthy(token) ==>
      var p := Loaded(token, Answer(ArrayBody(RowsOf(s.appointments, ids))));
      && |p.rows| == |ids| && (forall i :: 0 <= i < |ids| ==> p.rows[i].id == ids[i])
      && Mirrors(p.rows, s.appointments)
      && (Displayed(p) == NoAppointments <==> ids == [])
      && (ids != [] ==> Displayed(p) == Lists(p.rows))
    ensures Truthy(token) && resp.Failed? && resp.status == 404 ==>
      Displayed(Loaded(token, resp)) == ShowsError("Please complete your profile to view appointments.")
    ensures !Truthy(token) ==> Displayed(Loaded(token, resp)) == ShowsError("Please sign in to view your appointments.")
  {
  }

  /** The render: an error hides the list. */
  function Displayed(p: Page): View {
    if Truthy(p.error) then ShowsError(p.error.value)
    else if p.rows == [] then NoAppointments
    else Lists(p.rows)
  }

  /** `appt.status === "pending"`: the cancel and pay buttons. */
  predicate ShowsActions(row: Row) {
    StatusName(row.appt.status) == "pending"
  }

  /** Only a pending appointment offers actions. */
  lemma ActionsOnlyWhenPending(row: Row)
    ensures ShowsActions(row) <==> row.appt.status == Pending
  {
  }

  /** The map after a successful cancel. */
  function MarkCancelled(rows: seq<Row>, id: AppointmentId): seq<Row> {
    seq(|rows|, i requires 0 <= i < |rows| =>
      if rows[i].id == id then rows[i].(appt := rows[i].appt.(status := Cancelled)) else rows[i])
  }

  /** The map after a verified payment. */
  function MarkPaid(rows: seq<Row>, id: AppointmentId, paymentId: string): seq<Row> {
    seq(|rows|, i requires 0 <= i < |rows| =>
      if rows[i].id == id then rows[i].(appt := rows[i].appt.(status := Paid, paymentId := Some(paymentId))) else rows[i])
  }

  /** Both updates keep the list's length and order, change only the rows
      with that id, and leave those without actions; applying one twice is
      applying it once. */
  lemma ListUpdatesTouchOnlyThatRow(rows: seq<Row>, id: AppointmentId, paymentId: string)
    ensures var c := MarkCancelled(rows, id);
      && |c| == |rows|
      && (forall i :: 0 <= i < |rows| && rows[i].id != id ==> c[i] == rows[i])
      && (forall i :: 0 <= i < |rows| && rows[i].id == id ==>
            c[i].id == id && c[i].appt == rows[i].appt.(status := Cancelled) && !ShowsActions(c[i]))
      && MarkCancelled(c, id) == c
    ensures var q := MarkPaid(rows, id, paymentId);
      && |q| == |rows|
      && (forall i :: 0 <= i < |rows| && rows[i].id != id ==> q[i] == rows[i])
      && (forall i :: 0 <= i < |rows| && rows[i].id == id ==>
            q[i].id == id && q[i].appt == rows[i].appt.(status := Paid, paymentId := Some(paymentId)) && !ShowsActions(q[i]))
      && MarkPaid(q, id, paymentId) == q
  {
  }

  /** The page's rows show the store's appointments as they are. */
  predicate Mirrors(rows: seq<Row>, appts: map<AppointmentId, Appointment>) {
    forall i :: 0 <= i < |rows| ==> rows[i].id in appts && rows[i].appt == appts[rows[i].id]
  }

  /** The local update after a cancel the route accepted shows what the
      store now holds: rows that showed the store before still do. */
  lemma CancelUpdateAgreesWithStore(s: State, caller: UserId, id: AppointmentId, save: SaveOutcome, rows: seq<Row>)
    requires Mirrors(rows, s.appointments)
    requires CancelStep(s, caller, id, save).reply.Ok?
    ensures Mirrors(MarkCancelled(rows, id), CancelStep(s, caller, id, save).state.appointments)
  {
    var after := CancelStep(s, caller, id, save).state.appointments;
    assert after == s.appointments[id := s.appointments[id].(status := Cancelled)];
  }

  /** The same for the update after a payment the route verified: the row
      becomes paid with the payment id the gateway returned. */
  lemma PaidUpdateAgreesWithStore(s: State, caller: UserId, p: PaymentProof, sign: string -> string, rows: seq<Row>)
    requires Mirrors(rows, s.appointments)
    requires p.appointmentId.Some?
    requires VerifyPaymentStep(s, caller, p, sign).reply.Ok?
    ensures Mirrors(MarkPaid(rows, p.appointmentId.value, p.paymentId), VerifyPaymentStep(s, caller, p, sign).state.appointments)
  {
  }

  // ------------------------------------------------ after a successful call

  /** `handleCancel` after the route answered 200, as written: the rows are
      updated, then the call of `setSuccessMessage`, a name the component
      never declares, throws, and the catch shows its fallback message. */
  function CancelSucceededAsWritten(p: Page, id: AppointmentId): Page {
    p.(rows := MarkCancelled(p.rows, id), error := Some("Failed to cancel appointment."))
  }

  /** `handleCancel` after a 200, with the success message declared. */
  function CancelSucceeded(p: Page, id: AppointmentId): Page {
    p.(rows := MarkCancelled(p.rows, id), success := Some("Appointment cancelled successfully!"))
  }

  /** The payment handler after `verify-payment` answered 200, as written:
      the same undeclared call throws and the catch shows its message. */
  function PaymentVerifiedAsWritten(p: Page, id: AppointmentId, paymentId: string): Page {
    p.(rows := MarkPaid(p.rows, id, paymentId), error := Some("Try refreshing the page or Please contact support."))
  }

  /** The payment handler after a 200, with the success message declared. */
  function PaymentVerified(p: Page, id: AppointmentId, paymentId: string): Page {
    p.(rows := MarkPaid(p.rows, id, paymentId), success := Some("Payment successful!"))
  }

  /** As written, a cancel or payment the server accepted is reported as a
      failure and the list disappears behind the error. */
  lemma SuccessReportedAsFailure(p: Page, id: AppointmentId, paymentId: string)
    ensures Displayed(CancelSucceededAsWritten(p, id)) == ShowsError("Failed to cancel appointment.")
    ensures Displayed(PaymentVerifiedAsWritten(p, id, paymentId)) == ShowsError("Try refreshing the page or Please contact support.")
  {
  }

  /** With the message declared, a page showing its list goes on showing it,
      with only the affected row changed and its actions gone. */
  lemma SuccessKeepsListShown(p: Page, id: AppointmentId, paymentId: string)
    requires Displayed(p).Lists?
    ensures Displayed(CancelSucceeded(p, id)) == Lists(MarkCancelled(p.rows, id))
    ensures Displayed(PaymentVerified(p, id, paymentId)) == Lists(MarkPaid(p.rows, id, paymentId))
    ensures CancelSucceeded(p, id).success == Some("Appointment cancelled successfully!")
  {
  }
}
