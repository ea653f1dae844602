/** The related-doctors box (`components/RelatedDoctors.jsx`): other
    doctors of the shown doctor's speciality. */
module RelatedDoctors {
  import opened Common
  import opened Models
  import opened JsStrings
  import opened DoctorsPage

  /** The effect's filter predicate. */
  predicate IsRelated(d: Listed, docId: DoctorId, speciality: string) {
    d.id != docId && Normalize(d.doctor.speciality) == Normalize(speciality)
  }

  /** The effect: with doctors loaded and a truthy speciality, the list is
      replaced by the filtered doctors; otherwise the previous list stays. */
  function Related(previous: seq<Listed>, doctors: seq<Listed>, docId: DoctorId, speciality: Option<string>): seq<Listed> {
    if |doctors| > 0 && Truthy(speciality) then Filter(doctors, (d: Listed) => IsRelated(d, docId, speciality.value))
    else previous
  }

  /** The shown doctor never appears among its related doctors; every other
      doctor of the same speciality does, in list order; and nothing changes
      while the list is empty or the speciality is unset. */
  lemma RelatedExcludesShownDoctor(previous: seq<Listed>, doctors: seq<Listed>, docId: DoctorId, speciality: Option<string>)
    ensures !(|doctors| > 0 && Truthy(speciality)) ==> Related(previous, doctors, docId, speciality) == previous
    ensures |doctors| > 0 && Truthy(speciality) ==>
      var r := Related(previous, doctors, docId, speciality);
      && (forall i :: 0 <= i < |r| ==> r[i].id != docId)
      && (forall d :: d in r <==> d in doctors && d.id != docId && Normalize(d.doctor.speciality) == Normalize(speciality.value))
      && IsSubsequence(r, doctors)
  {
    if |doctors| > 0 && Truthy(speciality) {
      var p := (d: Listed) => IsRelated(d, docId, speciality.value);
      var r := Filter(doctors, p);
      forall d ensures d in r <==> d in doctors && d.id != docId && Normalize(d.doctor.speciality) == Normalize(speciality.value) {
        FilterMembership(doctors, p, d);
      }
      FilterIsSubsequence(doctors, p);
    }
  }

  /** The related list is the speciality filter of the list page without
      the shown doctor. */
  lemma RelatedIsFilterWithoutSelf(doctors: seq<Listed>, docId: DoctorId, speciality: string)
    requires |doctors| > 0 && speciality != "" && speciality != "All"
    ensures forall d :: d in Related([], doctors, docId, Some(speciality)) <==> d in ApplyFilter(doctors, speciality) && d.id != docId
  {
    var p := (d: Listed) => IsRelated(d, docId, speciality);
    var q := HasSpeciality(Normalize(speciality));
    forall d ensures d in Related([], doctors, docId, Some(speciality)) <==> d in ApplyFilter(doctors, speciality) && d.id != docId {
      FilterMembership(doctors, p, d);
      FilterMembership(doctors, q, d);
    }
  }
}
