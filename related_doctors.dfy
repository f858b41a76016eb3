/** The related-doctors strip (RelatedDoctors.jsx): the other doctors of
    the same speciality, in the order of the doctor list, at most five
    shown. */
module RelatedDoctors {
  import opened Seqs

  datatype Doctor = Doctor(id: string, name: string, speciality: string)

  function Matches(speciality: string, docId: string): Doctor -> bool {
    (d: Doctor) => d.speciality == speciality && d.id != docId
  }

  /** The `filter` in the effect. */
  function Related(doctors: seq<Doctor>, speciality: string, docId: string): seq<Doctor> {
    Filter(doctors, Matches(speciality, docId))
  }

  /** A doctor is related exactly when it is in the list, has the given
      speciality and is not the current doctor. */
  lemma RelatedExact(doctors: seq<Doctor>, speciality: string, docId: string)
    ensures forall d :: d in Related(doctors, speciality, docId) <==>
      d in doctors && d.speciality == speciality && d.id != docId
  {
    forall d ensures d in Related(doctors, speciality, docId) <==> d in doctors && d.speciality == speciality && d.id != docId {
      FilterMembership(doctors, Matches(speciality, docId), d);
    }
  }

  /** The related list keeps the relative order of the doctor list. */
  lemma RelatedKeepsOrder(a: seq<Doctor>, b: seq<Doctor>, speciality: string, docId: string)
    ensures Related(a + b, speciality, docId) == Related(a, speciality, docId) + Related(b, speciality, docId)
  {
    FilterConcat(a, b, Matches(speciality, docId));
  }

  /** The effect: when there are doctors and a speciality the list becomes
      the related doctors, every one of them and in the doctor list's
      order; otherwise the previous list stays. */
  function AfterEffect(relDoc: seq<Doctor>, doctors: seq<Doctor>, speciality: string, docId: string): (r: seq<Doctor>)
    ensures |doctors| > 0 && speciality != "" ==>
      r == Related(doctors, speciality, docId)
      && forall d :: d in r <==> d in doctors && d.speciality == speciality && d.id != docId
    ensures !(|doctors| > 0 && speciality != "") ==> r == relDoc
  {
    RelatedExact(doctors, speciality, docId);
    if |doctors| > 0 && speciality != "" then Related(doctors, speciality, docId) else relDoc
  }

  /** `relDoc.slice(0, 5)`: the first five related doctors, or all of
      them when there are fewer. */
  function Shown(relDoc: seq<Doctor>): (r: seq<Doctor>)
    ensures |r| <= 5 && |r| <= |relDoc| && r == relDoc[..|r|]
    ensures |relDoc| >= 5 ==> |r| == 5
    ensures |relDoc| < 5 ==> r == relDoc
  {
    relDoc[..if |relDoc| < 5 then |relDoc| else 5]
  }
}
