/**
 * The in-memory collection of patients. Patients compare by record number,
 * so the set holds at most one patient per record number; it is kept here as
 * a map from record number to the stored patient.
 */
module PatientStores {
  import opened Patients

  /** Each entry is filed under its own record number. */
  predicate KeyedByRecordNumber(m: map<nat, Patient>) {
    forall k | k in m :: m[k].medicalRecordNumber == k
  }

  /**
   * `Set.insert`: adds `p` unless a patient with the same record number is
   * already present, in which case the present member is kept.
   */
  function Inserted(m: map<nat, Patient>, p: Patient): (r: map<nat, Patient>)
    ensures p.medicalRecordNumber in r
    ensures p.medicalRecordNumber in m ==> r == m
    ensures p.medicalRecordNumber !in m ==> r[p.medicalRecordNumber] == p
    ensures forall k | k != p.medicalRecordNumber :: (k in r <==> k in m) && (k in m ==> r[k] == m[k])
    ensures KeyedByRecordNumber(m) ==> KeyedByRecordNumber(r)
  {
    if p.medicalRecordNumber in m then m else m[p.medicalRecordNumber := p]
  }

  /** `Set.remove`: drops the member with `p`'s record number, if any. */
  function Removed(m: map<nat, Patient>, p: Patient): (r: map<nat, Patient>)
    ensures p.medicalRecordNumber !in r
    ensures forall k | k != p.medicalRecordNumber :: (k in r <==> k in m) && (k in m ==> r[k] == m[k])
    ensures p.medicalRecordNumber !in m ==> r == m
    ensures KeyedByRecordNumber(m) ==> KeyedByRecordNumber(r)
  {
    m - {p.medicalRecordNumber}
  }

  /** `Set(patients)`: the patients inserted one by one, so the first of each record number stays. */
  function FromSeq(ps: seq<Patient>): (r: map<nat, Patient>)
    ensures KeyedByRecordNumber(r)
    ensures forall k | k in r :: r[k] in ps
    ensures forall i | 0 <= i < |ps| :: ps[i].medicalRecordNumber in r
    ensures forall i | 0 <= i < |ps| ::
      (forall j | 0 <= j < i :: ps[j].medicalRecordNumber != ps[i].medicalRecordNumber) ==>
        r[ps[i].medicalRecordNumber] == ps[i]
  {
    if ps == [] then map[]
    else
      var init := ps[..|ps| - 1];
      var r := Inserted(FromSeq(init), ps[|ps| - 1]);
      assert forall i | 0 <= i < |ps| - 1 :: ps[i] == init[i];
      r
  }

  /** Adding a new patient and removing it again restores the collection. */
  lemma AddThenRemoveRestores(m: map<nat, Patient>, p: Patient)
    requires p.medicalRecordNumber !in m
    ensures Removed(Inserted(m, p), p) == m
  {
  }

  /**
   * Inserting a second patient into a one-patient collection leaves it
   * unchanged exactly when the two patients are equal.
   */
  lemma EqualPatientsCollapse(p: Patient, q: Patient)
    ensures Inserted(Inserted(map[], p), q) == Inserted(map[], p) <==> p.Equals(q)
  {
  }

  class PatientStore {
    var patients: map<nat, Patient>

    ghost predicate Valid()
      reads this
    {
      KeyedByRecordNumber(patients)
    }

    /** The stored patients, in no particular order. */
    function Members(): (s: set<Patient>)
      reads this
      requires Valid()
      ensures forall p | p in s :: p.medicalRecordNumber in patients && patients[p.medicalRecordNumber] == p
      ensures forall k | k in patients :: patients[k] in s
    {
      patients.Values
    }

    constructor (initial: seq<Patient>)
      ensures Valid()
      ensures patients == FromSeq(initial)
    {
      patients := FromSeq(initial);
    }

    /** Adds `p`; a no-op when a patient with its record number is already stored. */
    method Add(p: Patient)
      requires Valid()
      modifies this
      ensures Valid()
      ensures patients == Inserted(old(patients), p)
    {
      patients := Inserted(patients, p);
    }

    /** Removes the patient with `p`'s record number; a no-op when there is none. */
    method Remove(p: Patient)
      requires Valid()
      modifies this
      ensures Valid()
      ensures patients == Removed(old(patients), p)
    {
      patients := Removed(patients, p);
    }
  }
}
