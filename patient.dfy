/**
 * A patient record: demographic fields, an optional blood type and the
 * ordered history of prescribed medications, with the derived views and the
 * two operations that change the history (prescribe and remove).
 */
module Patients {
  import opened Wrappers
  import opened Decimal
  import opened BloodTypes
  import opened Medications
  import opened PatientErrors
  import opened MedicationErrors

  // ----- The history as a sequence of medications -----

  /** Some medication in `meds` has exactly this name and is active at `now`. */
  predicate HasActiveNamed(meds: seq<Medication>, name: string, now: Timestamp) {
    exists i | 0 <= i < |meds| :: meds[i].name == name && IsActive(meds[i], now)
  }

  /** No two active medications share a name. */
  predicate NoDuplicateActive(meds: seq<Medication>, now: Timestamp) {
    forall i, j | 0 <= i < j < |meds| && IsActive(meds[i], now) && IsActive(meds[j], now) ::
      meds[i].name != meds[j].name
  }

  /** The active medications, in their original order (`filter { $0.isActive }`). */
  function ActiveOnly(meds: seq<Medication>, now: Timestamp): (r: seq<Medication>)
    ensures |r| <= |meds|
    ensures forall m :: m in r <==> m in meds && IsActive(m, now)
  {
    if meds == [] then []
    else (if IsActive(meds[0], now) then [meds[0]] else []) + ActiveOnly(meds[1..], now)
  }

  /** The filter keeps every active entry as often as it occurs, and nothing else. */
  lemma {:induction false} ActiveOnlyCounts(meds: seq<Medication>, now: Timestamp)
    ensures forall m :: multiset(ActiveOnly(meds, now))[m] == if IsActive(m, now) then multiset(meds)[m] else 0
  {
    if meds != [] {
      assert meds == [meds[0]] + meds[1..];
      ActiveOnlyCounts(meds[1..], now);
    }
  }

  /** The filter works entry by entry, so it keeps the history order. */
  lemma {:induction false} ActiveOnlyAppend(a: seq<Medication>, b: seq<Medication>, now: Timestamp)
    ensures ActiveOnly(a + b, now) == ActiveOnly(a, now) + ActiveOnly(b, now)
  {
    if a == [] {
      assert a + b == b;
    } else {
      assert (a + b)[1..] == a[1..] + b;
      ActiveOnlyAppend(a[1..], b, now);
    }
  }

  predicate SortedByDate(s: seq<Medication>) {
    forall i, j | 0 <= i < j < |s| :: s[i].datePrescribed <= s[j].datePrescribed
  }

  /** The entries prescribed at `date`, in their order in `s`. */
  function WithDate(s: seq<Medication>, date: Timestamp): seq<Medication> {
    if s == [] then []
    else (if s[0].datePrescribed == date then [s[0]] else []) + WithDate(s[1..], date)
  }

  lemma WithDateCons(m: Medication, s: seq<Medication>, date: Timestamp)
    ensures WithDate([m] + s, date) == (if m.datePrescribed == date then [m] else []) + WithDate(s, date)
  {
    assert ([m] + s)[1..] == s;
  }

  /**
   * Inserts `m` before the first entry prescribed no earlier than it, so
   * that `m` precedes the entries that share its date.
   */
  function InsertByDate(m: Medication, s: seq<Medication>): (r: seq<Medication>)
    requires SortedByDate(s)
    ensures SortedByDate(r)
    ensures multiset(r) == multiset(s) + multiset{m}
  {
    if s == [] || m.datePrescribed <= s[0].datePrescribed then [m] + s
    else
      var rest := InsertByDate(m, s[1..]);
      HeadBeforeInserted(m, s, rest);
      [s[0]] + rest
  }

  /** Putting back the earliest entry in front of the sorted remainder keeps the order. */
  lemma HeadBeforeInserted(m: Medication, s: seq<Medication>, rest: seq<Medication>)
    requires SortedByDate(s) && s != [] && s[0].datePrescribed < m.datePrescribed
    requires SortedByDate(rest) && multiset(rest) == multiset(s[1..]) + multiset{m}
    ensures SortedByDate([s[0]] + rest)
    ensures multiset([s[0]] + rest) == multiset(s) + multiset{m}
  {
    assert s == [s[0]] + s[1..];
    forall k | 0 <= k < |rest| ensures s[0].datePrescribed <= rest[k].datePrescribed {
      assert rest[k] in multiset(rest);
    }
  }

  /** `m` lands before the entries that share its date; every other date keeps its entries' order. */
  lemma {:induction false} InsertByDateStable(m: Medication, s: seq<Medication>, date: Timestamp)
    requires SortedByDate(s)
    ensures WithDate(InsertByDate(m, s), date) == WithDate([m] + s, date)
  {
    if !(s == [] || m.datePrescribed <= s[0].datePrescribed) {
      assert s == [s[0]] + s[1..];
      var rest := InsertByDate(m, s[1..]);
      InsertByDateStable(m, s[1..], date);
      WithDateCons(s[0], rest, date);
      WithDateCons(m, s[1..], date);
      WithDateCons(m, s, date);
      WithDateCons(s[0], s[1..], date);
    }
  }

  /**
   * Sorts by prescription date, ascending. The sort is stable: entries
   * with the same date keep their order in `s`.
   */
  function SortByDate(s: seq<Medication>): (r: seq<Medication>)
    ensures SortedByDate(r)
    ensures multiset(r) == multiset(s)
    ensures forall date :: WithDate(r, date) == WithDate(s, date)
  {
    if s == [] then []
    else
      assert s == [s[0]] + s[1..];
      var sortedRest := SortByDate(s[1..]);
      assert forall date :: WithDate(InsertByDate(s[0], sortedRest), date) == WithDate(s, date) by {
        forall date ensures WithDate(InsertByDate(s[0], sortedRest), date) == WithDate(s, date) {
          InsertByDateStable(s[0], sortedRest, date);
          WithDateCons(s[0], sortedRest, date);
          WithDateCons(s[0], s[1..], date);
        }
      }
      InsertByDate(s[0], sortedRest)
  }

  /** Two entries with the same date stay in their original order. */
  lemma SortKeepsTiesInOrder(a: Medication, b: Medication)
    requires a.datePrescribed == b.datePrescribed
    ensures SortByDate([a, b]) == [a, b]
  {
    var date := a.datePrescribed;
    var r := SortByDate([a, b]);
    WithDateCons(a, [b], date);
    WithDateCons(b, [], date);
    assert [a, b] == [a] + [b] && [b] == [b] + [];
    assert multiset(r) == multiset{a, b};
    PairWithDate(r, a, b, date);
  }

  /** Two entries that both carry `date`, in this order, are all of a two-entry history. */
  lemma PairWithDate(r: seq<Medication>, a: Medication, b: Medication, date: Timestamp)
    requires |r| == 2 && WithDate(r, date) == [a, b]
    ensures r == [a, b]
  {
    assert r == [r[0]] + ([r[1]] + []);
    WithDateCons(r[0], [r[1]] + [], date);
    WithDateCons(r[1], [], date);
  }

  /** The history without the entries carrying identifier `id` (`removeAll { $0.id == id }`). */
  function WithoutId(meds: seq<Medication>, id: nat): (r: seq<Medication>)
    ensures |r| <= |meds|
    ensures forall m :: m in r <==> m in meds && m.id != id
  {
    if meds == [] then []
    else (if meds[0].id == id then [] else [meds[0]]) + WithoutId(meds[1..], id)
  }

  /** Removal keeps the order of what stays: it distributes over concatenation. */
  lemma {:induction false} WithoutIdAppend(a: seq<Medication>, b: seq<Medication>, id: nat)
    ensures WithoutId(a + b, id) == WithoutId(a, id) + WithoutId(b, id)
  {
    if a == [] {
      assert a + b == b;
    } else {
      assert (a + b)[0] == a[0] && (a + b)[1..] == a[1..] + b;
      WithoutIdAppend(a[1..], b, id);
    }
  }

  /** Removing an identifier no entry carries changes nothing. */
  lemma {:induction false} WithoutAbsentId(meds: seq<Medication>, id: nat)
    requires forall m | m in meds :: m.id != id
    ensures WithoutId(meds, id) == meds
  {
    if meds != [] {
      WithoutAbsentId(meds[1..], id);
    }
  }

  /** Time passing preserves "no duplicate active names": the active set only shrinks. */
  lemma NoDuplicateActiveLater(meds: seq<Medication>, earlier: Timestamp, later: Timestamp)
    requires earlier <= later && NoDuplicateActive(meds, earlier)
    ensures NoDuplicateActive(meds, later)
  {
    forall i, j | 0 <= i < j < |meds| && IsActive(meds[i], later) && IsActive(meds[j], later)
      ensures meds[i].name != meds[j].name
    {
      ActiveEarlierIfActiveLater(meds[i], earlier, later);
      ActiveEarlierIfActiveLater(meds[j], earlier, later);
    }
  }

  /**
   * The unit test's scenario: a course started now, one that ended ten days
   * ago and a long one started a hundred days ago; the current list is the
   * long course, then the new one.
   */
  lemma CurrentMedicationsExample(current: Medication, past: Medication, longTerm: Medication, now: Timestamp)
    requires current.datePrescribed == now && current.duration == 90
    requires past.datePrescribed == now - 20 * SecondsPerDay && past.duration == 10
    requires longTerm.datePrescribed == now - 100 * SecondsPerDay && longTerm.duration == 200
    ensures SortByDate(ActiveOnly([current, past, longTerm], now)) == [longTerm, current]
  {
    var active := ActiveOnly([current, past, longTerm], now);
    assert active == [current, longTerm] by {
      ActiveOfThree(current, past, longTerm, now);
    }
    SortTwo(current, longTerm);
  }

  /** The filter step of the scenario above. */
  lemma ActiveOfThree(current: Medication, past: Medication, longTerm: Medication, now: Timestamp)
    requires IsActive(current, now) && !IsActive(past, now) && IsActive(longTerm, now)
    ensures ActiveOnly([current, past, longTerm], now) == [current, longTerm]
  {
    assert ActiveOnly([longTerm], now) == [longTerm] by {
      assert [longTerm][1..] == [];
    }
    assert ActiveOnly([past, longTerm], now) == [longTerm] by {
      assert [past, longTerm][1..] == [longTerm];
    }
    assert [current, past, longTerm][1..] == [past, longTerm];
  }

  /** Sorting two entries puts the earlier prescription first. */
  lemma SortTwo(later: Medication, earlier: Medication)
    requires earlier.datePrescribed < later.datePrescribed
    ensures SortByDate([later, earlier]) == [earlier, later]
  {
    var r := SortByDate([later, earlier]);
    assert multiset(r) == multiset{later, earlier};
    assert |r| == 2;
    assert r[0] in multiset(r) && r[1] in multiset(r);
  }

  // ----- The patient -----

  class Patient {
    /** The medical record number: identity and equality key; stands for a UUID. */
    const medicalRecordNumber: nat
    var firstName: string
    var lastName: string
    var dateOfBirth: Timestamp
    var heightMillimeters: int
    var weightGrams: int
    var bloodType: Option<BloodType>
    var medications: seq<Medication>

    /** Stores the fields as given, with an empty history. */
    constructor (
      mrn: nat, firstName: string, lastName: string, dateOfBirth: Timestamp,
      height: int, weight: int, bloodType: Option<BloodType>)
      ensures medicalRecordNumber == mrn
      ensures this.firstName == firstName && this.lastName == lastName
      ensures this.dateOfBirth == dateOfBirth
      ensures heightMillimeters == height && weightGrams == weight
      ensures this.bloodType == bloodType
      ensures medications == []
    {
      medicalRecordNumber := mrn;
      this.firstName := firstName;
      this.lastName := lastName;
      this.dateOfBirth := dateOfBirth;
      heightMillimeters := height;
      weightGrams := weight;
      this.bloodType := bloodType;
      medications := [];
    }

    /**
     * The throwing initializer: rejects a date of birth after `now`, and
     * otherwise creates the patient under the fresh record number `mrn`.
     */
    static method Create(
      mrn: nat, firstName: string, lastName: string, dateOfBirth: Timestamp,
      height: int, weight: int, bloodType: Option<BloodType>, now: Timestamp)
      returns (r: Result<Patient, PatientError>)
      ensures r.Failure? <==> dateOfBirth > now
      ensures r.Failure? ==> r.error == FutureDateOfBirth
      ensures r.Success? ==> fresh(r.value)
      ensures r.Success? ==>
        var p := r.value;
        && p.medicalRecordNumber == mrn
        && p.firstName == firstName && p.lastName == lastName
        && p.dateOfBirth == dateOfBirth
        && p.heightMillimeters == height && p.weightGrams == weight
        && p.bloodType == bloodType
        && p.medications == []
    {
      if dateOfBirth > now {
        return Failure(FutureDateOfBirth);
      }
      var p := new Patient(mrn, firstName, lastName, dateOfBirth, height, weight, bloodType);
      return Success(p);
    }

    /** "Last, First (age)", for an age in whole years computed by the caller. */
    function FullNameAndAge(age: int): (s: string)
      reads this
      ensures var name := lastName + ", " + firstName + " (";
        && |s| > |name| + 1
        && s[..|name|] == name
        && ParseInt(s[|name|..|s| - 1]) == Some(age)
        && Canonical(s[|name|..|s| - 1])
        && s[|s| - 1] == ')'
    {
      var name, digits := lastName + ", " + firstName + " (", IntToString(age);
      IntToStringRoundTrip(age);
      var s := name + digits + ")";
      assert s[..|name|] == name;
      assert s[|name|..|s| - 1] == digits;
      s
    }

    /** The active medications, oldest prescription first. */
    function CurrentMedications(now: Timestamp): (r: seq<Medication>)
      reads this
      ensures SortedByDate(r)
      ensures forall m :: multiset(r)[m] == if IsActive(m, now) then multiset(medications)[m] else 0
      ensures forall date :: WithDate(r, date) == WithDate(ActiveOnly(medications, now), date)
    {
      ActiveOnlyCounts(medications, now);
      SortByDate(ActiveOnly(medications, now))
    }

    /** The donor types this patient may receive from; none while the blood type is unknown. */
    function CompatibleBloodTypes(): (r: seq<BloodType>)
      reads this
      ensures bloodType.None? ==> r == []
      ensures bloodType.Some? ==> bloodType.value in r && r == BloodTypes.CompatibleBloodTypes(bloodType.value)
    {
      match bloodType
      case None => []
      case Some(t) => BloodTypes.CompatibleBloodTypes(t)
    }

    /**
     * Appends `medication` to the history, unless an active medication of
     * exactly the same name is already there; then reports the duplicate and
     * leaves the history as it was.
     */
    method Prescribe(medication: Medication, now: Timestamp) returns (err: Option<MedicationError>)
      modifies this`medications
      ensures err.Some? <==> HasActiveNamed(old(medications), medication.name, now)
      ensures err.Some? ==> err.value == DuplicateMedication(medication.name) && medications == old(medications)
      ensures err.None? ==> medications == old(medications) + [medication]
      ensures NoDuplicateActive(old(medications), now) ==> NoDuplicateActive(medications, now)
    {
      if HasActiveNamed(medications, medication.name, now) {
        return Some(DuplicateMedication(medication.name));
      }
      medications := medications + [medication];
      return None;
    }

    /** Deletes every history entry that has the identifier of `medication`. */
    method RemoveMedication(medication: Medication)
      modifies this`medications
      ensures medications == WithoutId(old(medications), medication.id)
    {
      medications := WithoutId(medications, medication.id);
    }

    /**
     * Whether this patient may receive blood from `donor`; fails when either
     * blood type is unknown.
     */
    function CanReceiveBlood(donor: Patient): (r: Result<bool, PatientError>)
      reads this, donor
      ensures r.Failure? <==> bloodType.None? || donor.bloodType.None?
      ensures r.Failure? ==> r.error == InvalidBloodTypeForTransfusion
      ensures r.Success? ==> r.value == (donor.bloodType.value in CompatibleBloodTypes())
      ensures r.Success? ==> r.value == CarriesNoForeignAntigen(donor.bloodType.value, bloodType.value)
    {
      match (donor.bloodType, bloodType)
      case (Some(d), Some(_)) =>
        TableFollowsAntigenRule(d, bloodType.value);
        Success(d in CompatibleBloodTypes())
      case _ => Failure(InvalidBloodTypeForTransfusion)
    }

    /**
     * Patients are equal exactly when their record numbers are, whatever
     * their other fields; a patient equals itself.
     */
    predicate Equals(other: Patient)
      ensures Equals(other) <==> medicalRecordNumber == other.medicalRecordNumber
      ensures this == other ==> Equals(other)
    {
      medicalRecordNumber == other.medicalRecordNumber
    }
  }

  /** Patient equality is an equivalence that ignores every field but the record number. */
  lemma EqualsIsEquivalence(a: Patient, b: Patient, c: Patient)
    ensures a.Equals(a)
    ensures a.Equals(b) ==> b.Equals(a)
    ensures a.Equals(b) && b.Equals(c) ==> a.Equals(c)
    ensures a.Equals(b) <==> a.medicalRecordNumber == b.medicalRecordNumber
  {
  }

  /** The age shown in the list text can be read back: distinct ages give distinct text. */
  lemma FullNameAndAgeDeterminesAge(p: Patient, age1: int, age2: int)
    requires p.FullNameAndAge(age1) == p.FullNameAndAge(age2)
    ensures age1 == age2
  {
  }
}
