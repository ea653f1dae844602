/** A doctor's embedded slot sequence, as the booking and cancel handlers
    search and flip it: `doctor.availableSlots.find(...)` followed by an
    assignment to the `isAvailable` field of the slot found. */
module SlotLedger {
  import opened Common
  import opened Models

  /** The booking match shared by the router and the controller: the slot is
      on the same UTC calendar day as the requested instant, carries the
      requested time label, and is still available. */
  predicate Bookable(slot: Slot, day: int, time: Option<string>) {
    DayKey(slot.date) == day && time == Some(slot.time) && slot.isAvailable
  }

  /** The cancel match: same UTC day and time label, whatever the flag. */
  predicate SameSlot(slot: Slot, day: int, time: string) {
    DayKey(slot.date) == day && slot.time == time
  }

  /** The slot a booking takes: the first bookable one. */
  function BookableIn(slots: seq<Slot>, day: int, time: Option<string>): Option<nat> {
    FindFirst(slots, (sl: Slot) => Bookable(sl, day, time))
  }

  /** The slot a cancel releases: the first one with that day and time. */
  function ReleaseTarget(slots: seq<Slot>, day: int, time: string): Option<nat> {
    FindFirst(slots, (sl: Slot) => SameSlot(sl, day, time))
  }

  /** `slot.isAvailable = b` on the slot at index `i`. */
  function SetAvailable(slots: seq<Slot>, i: nat, b: bool): seq<Slot>
    requires i < |slots|
  {
    slots[i := slots[i].(isAvailable := b)]
  }

  /** No two slots of the sequence share a day and a time label. */
  ghost predicate UniqueKeys(slots: seq<Slot>) {
    forall i, j :: 0 <= i < |slots| && 0 <= j < |slots| && i != j ==>
      !SameSlot(slots[i], DayKey(slots[j].date), slots[j].time)
  }

  /** A booking's match: the slot chosen is the first slot on that day with
      that label that is still available. */
  lemma BookableInIsFirstMatch(slots: seq<Slot>, day: int, time: Option<string>)
    ensures match BookableIn(slots, day, time)
      case Some(k) =>
        && k < |slots| && DayKey(slots[k].date) == day && time == Some(slots[k].time) && slots[k].isAvailable
        && forall j :: 0 <= j < k ==> !Bookable(slots[j], day, time)
      case None => forall j :: 0 <= j < |slots| ==> !Bookable(slots[j], day, time)
  {
    var p := (sl: Slot) => Bookable(sl, day, time);
    var r := FindFirst(slots, p);
    if r.Some? {
      assert p(slots[r.value]);
    }
  }

  /** Flipping the slot a booking took makes that slot unbookable: a second
      identical request never picks it again, and when the doctor's
      (day, time) pairs are unique it finds no slot at all. */
  lemma TakenSlotNotOfferedAgain(slots: seq<Slot>, day: int, time: Option<string>)
    requires BookableIn(slots, day, time).Some?
    ensures var k := BookableIn(slots, day, time).value;
      && BookableIn(SetAvailable(slots, k, false), day, time) != Some(k)
      && (UniqueKeys(slots) ==> BookableIn(SetAvailable(slots, k, false), day, time).None?)
  {
    var k := BookableIn(slots, day, time).value;
    BookableInIsFirstMatch(slots, day, time);
    var after := SetAvailable(slots, k, false);
    BookableInIsFirstMatch(after, day, time);
    if UniqueKeys(slots) {
      forall j | 0 <= j < |after| ensures !Bookable(after[j], day, time) {
        if j != k && Bookable(after[j], day, time) {
          assert SameSlot(slots[j], DayKey(slots[k].date), slots[k].time);
        }
      }
    }
  }

  /** Releasing the slot of a (day, time) pair makes a booking of that pair
      find it again, when the doctor's pairs are unique. */
  lemma ReleasedSlotOfferedAgain(slots: seq<Slot>, k: nat, day: int, time: string)
    requires UniqueKeys(slots)
    requires ReleaseTarget(slots, day, time) == Some(k)
    ensures BookableIn(SetAvailable(slots, k, true), day, Some(time)) == Some(k)
  {
    var after := SetAvailable(slots, k, true);
    var p := (sl: Slot) => SameSlot(sl, day, time);
    assert p(slots[k]);
    forall j | 0 <= j < k ensures !Bookable(after[j], day, Some(time)) {
      assert !p(slots[j]);
    }
    FindFirstIs(after, (sl: Slot) => Bookable(sl, day, Some(time)), k);
  }

  /** Flipping a flag keeps every date and label, hence unique pairs stay unique. */
  lemma SetAvailableKeepsKeys(slots: seq<Slot>, i: nat, b: bool)
    requires i < |slots|
    ensures |SetAvailable(slots, i, b)| == |slots|
    ensures forall j :: 0 <= j < |slots| ==>
      SetAvailable(slots, i, b)[j].date == slots[j].date && SetAvailable(slots, i, b)[j].time == slots[j].time
    ensures UniqueKeys(slots) ==> UniqueKeys(SetAvailable(slots, i, b))
  {
  }
}
