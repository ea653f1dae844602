/** The doctor list page (`pages/Doctors.jsx`): the speciality filter and
    the speciality buttons that toggle it. */
module DoctorsPage {
  import opened Common
  import opened Models
  import opened JsStrings

  /** A doctor as the list endpoint returns it, with its id. */
  datatype Listed = Listed(id: DoctorId, doctor: Doctor)

  /** The filter's predicate: same speciality once trimmed and lower-cased. */
  predicate SameSpeciality(d: Listed, speciality: string) {
    Normalize(d.doctor.speciality) == Normalize(speciality)
  }

  /** The filter's predicate for a selection already trimmed and lower-cased. */
  function HasSpeciality(key: string): Listed -> bool {
    (d: Listed) => Normalize(d.doctor.speciality) == key
  }

  /** `applyFilter`: every doctor for "All" or an empty selection, otherwise
      the doctors of the selected speciality. */
  function ApplyFilter(doctors: seq<Listed>, speciality: string): seq<Listed> {
    if speciality != "" && speciality != "All" then Filter(doctors, HasSpeciality(Normalize(speciality)))
    else doctors
  }

  /** Every sequence is a subsequence of itself. */
  lemma SubsequenceOfSelf<T>(xs: seq<T>)
    ensures IsSubsequence(xs, xs)
  {
    var all := (x: T) => true;
    FilterAll(xs, all);
    FilterIsSubsequence(xs, all);
  }

  /** "All" and the empty selection show everyone; any other selection
      shows exactly the doctors of that speciality. */
  lemma FilterShowsSelected(doctors: seq<Listed>, speciality: string)
    ensures speciality == "" || speciality == "All" ==> ApplyFilter(doctors, speciality) == doctors
    ensures speciality != "" && speciality != "All" ==>
      forall d :: d in ApplyFilter(doctors, speciality) <==> d in doctors && SameSpeciality(d, speciality)
  {
    if speciality != "" && speciality != "All" {
      var p := HasSpeciality(Normalize(speciality));
      forall d ensures d in ApplyFilter(doctors, speciality) <==> d in doctors && SameSpeciality(d, speciality) {
        FilterMembership(doctors, p, d);
        assert p(d) == SameSpeciality(d, speciality);
      }
    }
  }

  /** The filtered list keeps the page's list order. */
  lemma FilterKeepsOrder(doctors: seq<Listed>, speciality: string)
    ensures IsSubsequence(ApplyFilter(doctors, speciality), doctors)
  {
    if speciality != "" && speciality != "All" {
      FilterIsSubsequence(doctors, HasSpeciality(Normalize(speciality)));
    } else {
      SubsequenceOfSelf(doctors);
    }
  }

  /** Filtering the filtered list again changes nothing. */
  lemma FilterIdempotent(doctors: seq<Listed>, speciality: string)
    ensures ApplyFilter(ApplyFilter(doctors, speciality), speciality) == ApplyFilter(doctors, speciality)
  {
    if speciality != "" && speciality != "All" {
      FilterAll(ApplyFilter(doctors, speciality), HasSpeciality(Normalize(speciality)));
    }
  }

  /** Padding a selection with whitespace selects the same doctors. */
  lemma FilterIgnoresPadding(doctors: seq<Listed>, speciality: string)
    requires speciality != "" && speciality != "All"
    ensures ApplyFilter(doctors, " " + speciality + "\t") == ApplyFilter(doctors, speciality)
  {
    NormalizeIgnoresPadding(speciality);
  }

  /** `handleSpecialityClick`: the selected speciality, or "All" when it is
      the current one. */
  function Toggle(current: string, clicked: string): string {
    if current == clicked then "All" else clicked
  }

  /** Clicking the current speciality clears the filter, clicking another
      selects it, clicking "All" always clears it, and clicking the same
      speciality twice from "All" returns to "All". */
  lemma ToggleBehaviour(current: string, clicked: string)
    ensures Toggle(current, clicked) == "All" <==> current == clicked || clicked == "All"
    ensures current != clicked ==> Toggle(current, clicked) == clicked
    ensures Toggle(Toggle("All", clicked), clicked) == "All"
  {
  }
}
