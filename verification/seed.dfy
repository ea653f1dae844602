/** The slot template of the seed script (`scripts/seedDoctors.js`,
    `generateTimeSlots`): for each of the seven days after today, twelve
    half-hour slots, six in the morning and six in the afternoon, all open. */
module Seed {
  import opened Common
  import opened Models
  import opened JsStrings

  const MorningTimes: seq<string> := ["09:00", "09:30", "10:00", "10:30", "11:00", "11:30"]
  const EveningTimes: seq<string> := ["14:00", "14:30", "15:00", "15:30", "16:00", "16:30"]

  /** `[...morningTimes, ...eveningTimes]`. */
  const Labels: seq<string> := MorningTimes + EveningTimes

  const Days: nat := 7

  /** The value of a two-digit decimal field. */
  function TwoDigits(a: char, b: char): int
    requires IsDigit(a) && IsDigit(b)
  {
    (a as int - '0' as int) * 10 + (b as int - '0' as int)
  }

  /** Minutes after midnight that an `HH:MM` label names, or none. */
  function LabelMinutes(text: string): (r: Option<int>)
    ensures r.Some? ==> 0 <= r.value < 100 * 60 + 100
  {
    if |text| == 5 && IsDigit(text[0]) && IsDigit(text[1]) && text[2] == ':' && IsDigit(text[3]) && IsDigit(text[4])
    then Some(TwoDigits(text[0], text[1]) * 60 + TwoDigits(text[3], text[4]))
    else None
  }

  /** The template slot `j`: day `j / 12 + 1` after today, label `j % 12`. */
  function TemplateSlot(today: Instant, j: nat): Slot
    requires j < Days * |Labels|
  {
    Slot(today + (j / |Labels| + 1) * DayMs, Labels[j % |Labels|], true)
  }

  /** The morning labels are 09:00 to 11:30, thirty minutes apart. */
  lemma MorningMinutes()
    ensures forall k :: 0 <= k < |MorningTimes| ==> LabelMinutes(MorningTimes[k]) == Some(9 * 60 + 30 * k)
  {
    assert LabelMinutes(MorningTimes[0]) == Some(540);
    assert LabelMinutes(MorningTimes[1]) == Some(570);
    assert LabelMinutes(MorningTimes[2]) == Some(600);
    assert LabelMinutes(MorningTimes[3]) == Some(630);
    assert LabelMinutes(MorningTimes[4]) == Some(660);
    assert LabelMinutes(MorningTimes[5]) == Some(690);
  }

  /** The afternoon labels are 14:00 to 16:30, thirty minutes apart. */
  lemma EveningMinutes()
    ensures forall k :: 0 <= k < |EveningTimes| ==> LabelMinutes(EveningTimes[k]) == Some(14 * 60 + 30 * k)
  {
    assert LabelMinutes(EveningTimes[0]) == Some(840);
    assert LabelMinutes(EveningTimes[1]) == Some(870);
    assert LabelMinutes(EveningTimes[2]) == Some(900);
    assert LabelMinutes(EveningTimes[3]) == Some(930);
    assert LabelMinutes(EveningTimes[4]) == Some(960);
    assert LabelMinutes(EveningTimes[5]) == Some(990);
  }

  /** The twelve labels in order are 09:00 to 11:30 and then 14:00 to 16:30,
      so their times strictly increase and each label names a different time. */
  lemma LabelsAreHalfHours()
    ensures |Labels| == 12
    ensures forall k :: 0 <= k < 6 ==> LabelMinutes(Labels[k]) == Some(9 * 60 + 30 * k)
    ensures forall k :: 6 <= k < 12 ==> LabelMinutes(Labels[k]) == Some(14 * 60 + 30 * (k - 6))
    ensures forall a, b :: 0 <= a < b < |Labels| ==> LabelMinutes(Labels[a]).value < LabelMinutes(Labels[b]).value
    ensures forall a, b :: 0 <= a < b < |Labels| ==> Labels[a] != Labels[b]
  {
    MorningMinutes();
    EveningMinutes();
    assert forall k :: 0 <= k < 6 ==> Labels[k] == MorningTimes[k];
    assert forall k :: 6 <= k < 12 ==> Labels[k] == EveningTimes[k - 6];
    forall a, b | 0 <= a < b < |Labels| ensures Labels[a] != Labels[b] {
      assert LabelMinutes(Labels[a]).value < LabelMinutes(Labels[b]).value;
    }
  }

  /** `generateTimeSlots`: the counted day loop and, inside it, the push of
      one slot per label. The result is exactly the template. */
  method GenerateTimeSlots(today: Instant) returns (slots: seq<Slot>)
    ensures |slots| == Days * |Labels|
    ensures forall j :: 0 <= j < |slots| ==> slots[j] == TemplateSlot(today, j)
  {
    assert |Labels| == 12;
    slots := [];
    var i := 1;
    while i <= Days
      invariant 1 <= i <= Days + 1
      invariant |slots| == (i - 1) * 12
      invariant forall j :: 0 <= j < |slots| ==> slots[j] == TemplateSlot(today, j)
    {
      var date := today + i * DayMs;
      var times := MorningTimes + EveningTimes;
      var k := 0;
      while k < |times|
        invariant 0 <= k <= |times| && times == Labels
        invariant |slots| == (i - 1) * 12 + k
        invariant forall j :: 0 <= j < |slots| ==> slots[j] == TemplateSlot(today, j)
      {
        TemplateIndex(i - 1, k);
        slots := slots + [Slot(date, times[k], true)];
        k := k + 1;
      }
      i := i + 1;
    }
  }

  /** Slot number `d * 12 + k` is label `k` of day `d + 1`. */
  lemma TemplateIndex(d: nat, k: nat)
    requires k < 12
    ensures (d * 12 + k) / 12 == d && (d * 12 + k) % 12 == k
  {
  }

  /** Every template slot is open, lies one to seven whole days after today,
      and carries one of the twelve labels; within a day the labels come in
      list order, morning before afternoon. */
  lemma TemplateShape(today: Instant, j: nat)
    requires j < Days * |Labels|
    ensures TemplateSlot(today, j).isAvailable
    ensures var offset := TemplateSlot(today, j).date - today;
      offset % DayMs == 0 && 1 <= offset / DayMs <= Days
    ensures DayKey(TemplateSlot(today, j).date) == DayKey(today) + j / |Labels| + 1
    ensures TemplateSlot(today, j).time in Labels
    ensures j % |Labels| < |MorningTimes| <==> TemplateSlot(today, j).time in MorningTimes
  {
    LabelsAreHalfHours();
    DayKeyShift(today, j / |Labels| + 1);
  }

  /** Slots come day by day: an earlier slot is never on a later day, and
      on the same day it has an earlier label. */
  lemma TemplateOrder(today: Instant, a: nat, b: nat)
    requires a < b < Days * |Labels|
    ensures DayKey(TemplateSlot(today, a).date) <= DayKey(TemplateSlot(today, b).date)
    ensures DayKey(TemplateSlot(today, a).date) == DayKey(TemplateSlot(today, b).date) ==>
      LabelMinutes(TemplateSlot(today, a).time).value < LabelMinutes(TemplateSlot(today, b).time).value
  {
    LabelsAreHalfHours();
    TemplateShape(today, a);
    TemplateShape(today, b);
    if a / 12 == b / 12 {
      assert a % 12 < b % 12;
    }
  }

  /** No two template slots share both their calendar day and their label. */
  lemma TemplatePairsDistinct(today: Instant, a: nat, b: nat)
    requires a < b < Days * |Labels|
    ensures DayKey(TemplateSlot(today, a).date) != DayKey(TemplateSlot(today, b).date)
         || TemplateSlot(today, a).time != TemplateSlot(today, b).time
  {
    LabelsAreHalfHours();
    TemplateShape(today, a);
    TemplateShape(today, b);
    if a / 12 == b / 12 {
      assert a % 12 != b % 12;
    }
  }

  /** Each pushed `{date, time, isAvailable: true}` is the slot sub-document
      Mongoose builds from it, its label is never empty, and so a doctor of
      the script's list with these slots passes the save's `required` checks
      exactly when its name, speciality, degree and experience are non-empty;
      the given image and about are kept over their defaults. */
  lemma SeededDoctorSaves(today: Instant, slots: seq<Slot>, name: string, speciality: string, degree: string,
                          experience: string, image: string, about: string, fees: int)
    requires |slots| == Days * |Labels|
    requires forall j :: 0 <= j < |slots| ==> slots[j] == TemplateSlot(today, j)
    ensures forall j :: 0 <= j < |slots| ==> slots[j] == NewSlot(slots[j].date, Labels[j % |Labels|], Some(true))
    ensures var d := NewDoctor(name, speciality, degree, experience, Some(image), Some(about), fees, slots);
      && (DoctorSaveable(d) <==> name != "" && speciality != "" && degree != "" && experience != "")
      && d.image == image && d.about == about && d.availableSlots == slots
  {
    LabelsAreHalfHours();
    forall j | 0 <= j < |slots| ensures slots[j].time != "" {
      assert slots[j].time == Labels[j % 12];
      assert LabelMinutes(Labels[j % 12]).Some?;
    }
  }
}
