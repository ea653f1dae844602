/** The booking page (`pages/Appointment.jsx`): the grouping of a doctor's
    slots by calendar day, the choice of a slot, and the guards in front of
    the two requests a booking sends. */
module AppointmentPage {
  import opened Common
  import opened Models
  import opened SlotLedger
  import opened Store
  import opened PatientsRouter
  import opened AppointmentsRouter

  /** What the page keeps of a slot. */
  datatype TimeSlot = TimeSlot(time: string, isAvailable: bool)

  /** One day's column: its ISO day (as a day key) and its slots. */
  datatype DaySlots = DaySlots(date: int, slots: seq<TimeSlot>)

  function Entry(sl: Slot): TimeSlot {
    TimeSlot(sl.time, sl.isAvailable)
  }

  // ------------------------------------------------------------ grouping

  /** `acc.find((s) => s.date === date)`. */
  function GroupIndex(acc: seq<DaySlots>, key: int): Option<nat> {
    FindFirst(acc, (g: DaySlots) => g.date == key)
  }

  /** One step of the reduce: append the slot to its day's column, opening
      a new column at the end for a day not seen yet. */
  function AddSlot(acc: seq<DaySlots>, sl: Slot): seq<DaySlots> {
    var key := DayKey(sl.date);
    match GroupIndex(acc, key)
    case None => acc + [DaySlots(key, [Entry(sl)])]
    case Some(i) => acc[i := acc[i].(slots := acc[i].slots + [Entry(sl)])]
  }

  /** The reduce over the whole slot list. */
  function Grouped(xs: seq<Slot>): seq<DaySlots>
    decreases |xs|
  {
    if xs == [] then [] else AddSlot(Grouped(xs[..|xs| - 1]), xs[|xs| - 1])
  }

  /** The day of each slot, in slot order. */
  function Keys(xs: seq<Slot>): (r: seq<int>)
    ensures |r| == |xs| && forall i :: 0 <= i < |xs| ==> r[i] == DayKey(xs[i].date)
  {
    seq(|xs|, i requires 0 <= i < |xs| => DayKey(xs[i].date))
  }

  /** The day of each column, in column order. */
  function Dates(gs: seq<DaySlots>): (r: seq<int>)
    ensures |r| == |gs| && forall i :: 0 <= i < |gs| ==> r[i] == gs[i].date
  {
    seq(|gs|, i requires 0 <= i < |gs| => gs[i].date)
  }

  /** The distinct values of `ks` in the order they first appear. */
  function FirstAppearance(ks: seq<int>): seq<int>
    decreases |ks|
  {
    if ks == [] then []
    else
      var d := FirstAppearance(ks[..|ks| - 1]);
      if ks[|ks| - 1] in d then d else d + [ks[|ks| - 1]]
  }

  /** The slots of one day, in input order, as the page keeps them. */
  function Members(xs: seq<Slot>, key: int): seq<TimeSlot>
    decreases |xs|
  {
    if xs == [] then []
    else Members(xs[..|xs| - 1], key) + (if DayKey(xs[|xs| - 1].date) == key then [Entry(xs[|xs| - 1])] else [])
  }

  /** Total number of slots over all columns. */
  function Total(gs: seq<DaySlots>): nat
    decreases |gs|
  {
    if gs == [] then 0 else Total(gs[..|gs| - 1]) + |gs[|gs| - 1].slots|
  }

  /** The distinct values are exactly the values, each once. */
  lemma {:induction false} FirstAppearanceFacts(ks: seq<int>)
    ensures forall k :: k in FirstAppearance(ks) <==> k in ks
    ensures forall a, b :: 0 <= a < b < |FirstAppearance(ks)| ==> FirstAppearance(ks)[a] != FirstAppearance(ks)[b]
    decreases |ks|
  {
    if ks != [] {
      var p := ks[..|ks| - 1];
      FirstAppearanceFacts(p);
      assert ks == p + [ks[|ks| - 1]];
    }
  }

  /** A day with no slot has no members. */
  lemma {:induction false} MembersOfAbsentDay(xs: seq<Slot>, key: int)
    requires key !in Keys(xs)
    ensures Members(xs, key) == []
    decreases |xs|
  {
    if xs != [] {
      var p := xs[..|xs| - 1];
      assert Keys(p) == Keys(xs)[..|xs| - 1];
      MembersOfAbsentDay(p, key);
    }
  }

  /** Every member of a day is the entry of some slot of that day. */
  lemma {:induction false} MembersComeFromDay(xs: seq<Slot>, key: int, t: TimeSlot)
    requires t in Members(xs, key)
    ensures exists j :: 0 <= j < |xs| && DayKey(xs[j].date) == key && Entry(xs[j]) == t
    decreases |xs|
  {
    var p := xs[..|xs| - 1];
    var n := |xs| - 1;
    if t in Members(p, key) {
      MembersComeFromDay(p, key, t);
      var j :| 0 <= j < |p| && DayKey(p[j].date) == key && Entry(p[j]) == t;
      assert xs[j] == p[j];
    } else {
      assert DayKey(xs[n].date) == key && Entry(xs[n]) == t;
    }
  }

  /** What the reduce builds: the columns' days are the slots' days in order
      of first appearance, and each column holds exactly its day's slots,
      in input order. */
  ghost predicate GroupsOf(xs: seq<Slot>, gs: seq<DaySlots>) {
    && Dates(gs) == FirstAppearance(Keys(xs))
    && forall g :: 0 <= g < |gs| ==> gs[g].slots == Members(xs, gs[g].date)
  }

  /** The reduce groups by day. */
  lemma {:induction false} GroupedByDay(xs: seq<Slot>)
    ensures GroupsOf(xs, Grouped(xs))
    decreases |xs|
  {
    if xs != [] {
      var p := xs[..|xs| - 1];
      var sl := xs[|xs| - 1];
      var key := DayKey(sl.date);
      var acc := Grouped(p);
      GroupedByDay(p);
      assert Keys(xs) == Keys(p) + [key];
      assert xs[..|xs| - 1] == p;
      FirstAppearanceFacts(Keys(p));
      var gs := Grouped(xs);
      assert gs == AddSlot(acc, sl);
      match GroupIndex(acc, key)
      case None =>
        assert key !in Dates(acc);
        assert key !in Keys(p);
        MembersOfAbsentDay(p, key);
        assert Dates(gs) == Dates(acc) + [key];
        forall g | 0 <= g < |gs| ensures gs[g].slots == Members(xs, gs[g].date) {
          if g < |acc| {
            assert gs[g] == acc[g];
            assert acc[g].date != key;
          }
        }
      case Some(i) =>
        assert key in Dates(acc);
        assert Dates(gs) == Dates(acc);
        forall g | 0 <= g < |gs| ensures gs[g].slots == Members(xs, gs[g].date) {
          if g != i {
            assert gs[g] == acc[g];
            assert Dates(acc)[g] != Dates(acc)[i];
          }
        }
    }
  }

  lemma {:induction false} TotalAppend(gs: seq<DaySlots>, g: DaySlots)
    ensures Total(gs + [g]) == Total(gs) + |g.slots|
  {
    assert (gs + [g])[..|gs|] == gs;
  }

  lemma {:induction false} TotalUpdate(gs: seq<DaySlots>, i: nat, g: DaySlots)
    requires i < |gs|
    ensures Total(gs[i := g]) == Total(gs) - |gs[i].slots| + |g.slots|
    decreases |gs|
  {
    var n := |gs| - 1;
    assert gs[i := g][..n] == if i == n then gs[..n] else gs[..n][i := g];
    if i < n {
      TotalUpdate(gs[..n], i, g);
    }
  }

  /** No slot is lost or duplicated: the columns hold as many slots as the
      doctor has. */
  lemma {:induction false} GroupedKeepsCount(xs: seq<Slot>)
    ensures Total(Grouped(xs)) == |xs|
    decreases |xs|
  {
    if xs != [] {
      var p := xs[..|xs| - 1];
      var sl := xs[|xs| - 1];
      GroupedKeepsCount(p);
      var acc := Grouped(p);
      match GroupIndex(acc, DayKey(sl.date))
      case None =>
        TotalAppend(acc, DaySlots(DayKey(sl.date), [Entry(sl)]));
      case Some(i) =>
        TotalUpdate(acc, i, acc[i].(slots := acc[i].slots + [Entry(sl)]));
    }
  }

  /** The reduce as the page runs it: one step per slot. */
  method GroupSlots(slots: seq<Slot>) returns (groups: seq<DaySlots>)
    ensures groups == Grouped(slots)
    ensures Dates(groups) == FirstAppearance(Keys(slots))
    ensures forall g :: 0 <= g < |groups| ==> groups[g].slots == Members(slots, groups[g].date)
    ensures forall a, b :: 0 <= a < b < |groups| ==> groups[a].date != groups[b].date
    ensures Total(groups) == |slots|
  {
    groups := [];
    var n := 0;
    while n < |slots|
      invariant 0 <= n <= |slots|
      invariant groups == Grouped(slots[..n])
    {
      groups := PushSlot(groups, slots[n]);
      assert slots[..n + 1][..n] == slots[..n];
      n := n + 1;
    }
    assert slots[..n] == slots;
    GroupedFacts(slots);
  }

  /** The columns follow the days' first appearances, each holds exactly
      its day's slots, no day has two columns, and no slot is lost. */
  lemma GroupedFacts(slots: seq<Slot>)
    ensures var groups := Grouped(slots);
      && Dates(groups) == FirstAppearance(Keys(slots))
      && (forall g :: 0 <= g < |groups| ==> groups[g].slots == Members(slots, groups[g].date))
      && (forall a, b :: 0 <= a < b < |groups| ==> groups[a].date != groups[b].date)
      && Total(groups) == |slots|
  {
    var groups := Grouped(slots);
    GroupedByDay(slots);
    GroupedKeepsCount(slots);
    FirstAppearanceFacts(Keys(slots));
    assert forall a, b :: 0 <= a < b < |groups| ==> Dates(groups)[a] != Dates(groups)[b];
  }

  /** The reduce's callback: find the slot's day column, push a new empty
      column when there is none, then push the slot into it. */
  method PushSlot(acc: seq<DaySlots>, sl: Slot) returns (groups: seq<DaySlots>)
    ensures groups == AddSlot(acc, sl)
  {
    groups := acc;
    var key := DayKey(sl.date);
    var i := 0;
    while i < |groups| && groups[i].date != key
      invariant 0 <= i <= |groups|
      invariant forall j :: 0 <= j < i ==> groups[j].date != key
    {
      i := i + 1;
    }
    if i == |groups| {
      assert GroupIndex(acc, key).None?;
      groups := groups + [DaySlots(key, [])];
    } else {
      FindFirstIs(groups, (g: DaySlots) => g.date == key, i);
      assert GroupIndex(acc, key) == Some(i);
    }
    groups := groups[i := groups[i].(slots := groups[i].slots + [Entry(sl)])];
    if i == |acc| {
      assert groups[i].slots == [] + [Entry(sl)] == [Entry(sl)];
      assert groups == acc + [DaySlots(key, [Entry(sl)])];
    }
  }

  // ----------------------------------------------------------- selection

  /** `selectedSlot`: the chosen column and time. */
  datatype Selection = Selection(dayIndex: Option<nat>, time: Option<string>)

  /** A slot button acts only when the slot is open and no booking is in
      flight. */
  predicate CanSelect(slot: TimeSlot, booking: bool) {
    slot.isAvailable && !booking
  }

  /** The slot button's click handler. */
  function Select(current: Selection, dayIndex: nat, slot: TimeSlot, booking: bool): (r: Selection)
    ensures CanSelect(slot, booking) ==> r == Selection(Some(dayIndex), Some(slot.time))
    ensures !CanSelect(slot, booking) ==> r == current
  {
    if CanSelect(slot, booking) then Selection(Some(dayIndex), Some(slot.time)) else current
  }

  // ------------------------------------------------------------- booking

  /** The page's form. */
  datatype PatientInput = PatientInput(name: string, email: string, phone: string, reason: string)

  datatype PageError = SignInRequired | SlotRequired | NameEmailMissing

  /** What submitting does: an error and no request, or the profile request
      and then, once it succeeds, the booking request. The booking request is
      absent when the column index is out of range: reading its date throws
      after the profile request went out. */
  datatype Submission = Refused(error: PageError) | Send(profile: ProfileForm, booking: Option<Fields>)

  /** `handleBookAppointment`. The column's ISO day string is what the
      booking carries; the server's `new Date` of it is midnight UTC of that
      day. */
  function Submit(token: Option<string>, docId: DoctorId, groups: seq<DaySlots>, sel: Selection, form: PatientInput): Submission {
    if !Truthy(token) then Refused(SignInRequired)
    else if !Truthy(sel.time) || sel.dayIndex.None? then Refused(SlotRequired)
    else if form.name == "" || form.email == "" then Refused(NameEmailMissing)
    else
      var profile := ProfileForm(Some(form.name), Some(form.email), Some(form.phone), None, None, Absent, None);
      var idx := sel.dayIndex.value;
      Send(profile, if idx < |groups| then Some(Fields(Some(docId), At(DayStart(groups[idx].date)), sel.time, Some(form.reason))) else None)
  }

  /** The guards fire in order and each one stops the submission: no token,
      then no slot chosen, then a missing name or email. */
  lemma SubmitGuardsInOrder(token: Option<string>, docId: DoctorId, groups: seq<DaySlots>, sel: Selection, form: PatientInput)
    ensures Submit(token, docId, groups, sel, form) == Refused(SignInRequired) <==> !Truthy(token)
    ensures Submit(token, docId, groups, sel, form) == Refused(SlotRequired) <==>
      Truthy(token) && (!Truthy(sel.time) || sel.dayIndex.None?)
    ensures Submit(token, docId, groups, sel, form) == Refused(NameEmailMissing) <==>
      Truthy(token) && Truthy(sel.time) && sel.dayIndex.Some? && (form.name == "" || form.email == "")
    ensures Submit(token, docId, groups, sel, form).Send? <==>
      Truthy(token) && Truthy(sel.time) && sel.dayIndex.Some? && form.name != "" && form.email != ""
  {
  }

  /** The profile request passes the route's checks unless the phone is
      neither empty nor ten digits, in which case the route refuses it and
      the booking request is never sent. */
  lemma ProfileRequestChecked(token: Option<string>, docId: DoctorId, groups: seq<DaySlots>, sel: Selection, form: PatientInput)
    requires Submit(token, docId, groups, sel, form).Send?
    ensures var f := Submit(token, docId, groups, sel, form).profile;
      (Validate(f).None? <==> form.phone == "" || TenDigits(form.phone))
      && (Validate(f).Some? ==> Validate(f) == Some(BadPhone))
  {
  }

  /** A slot the page lets one pick is one the booking route will find:
      when the doctor's slots are grouped by the page and an open slot of a
      column is selected, the booking request names that slot's day and time,
      and for a caller with a profile the route books it. */
  lemma SelectedSlotIsBookable(s: State, caller: UserId, docId: DoctorId, token: string, g: nat, t: TimeSlot, form: PatientInput)
    requires docId in s.doctors && caller in s.patients
    requires var groups := Grouped(s.doctors[docId].availableSlots);
      g < |groups| && t in groups[g].slots
    requires t.isAvailable && t.time != "" && token != "" && form.name != "" && form.email != ""
    ensures var groups := Grouped(s.doctors[docId].availableSlots);
      var sel := Select(Selection(None, None), g, t, false);
      var sub := Submit(Some(token), docId, groups, sel, form);
      && sub.Send? && sub.booking.Some?
      && sub.booking.value.date.At? && DayKey(sub.booking.value.date.t) == groups[g].date
      && sub.booking.value.time == Some(t.time)
      && BookStep(s, caller, sub.booking.value, AllSaved).reply.Ok?
  {
    var slots := s.doctors[docId].availableSlots;
    var groups := Grouped(slots);
    GroupedByDay(slots);
    var key := groups[g].date;
    DayKeyOfDayStart(key);
    MembersComeFromDay(slots, key, t);
    var j :| 0 <= j < |slots| && DayKey(slots[j].date) == key && Entry(slots[j]) == t;
    assert Bookable(slots[j], key, Some(t.time));
  }
}
