# Patient and prescription records — a Dafny model

This project models the domain core of a small patient record keeper written
in Swift. It covers five parts:

- the eight ABO/Rh blood types and the fixed table of donor types each
  recipient type may receive from;
- medication dosages, administration routes and the prescription record;
- the prescription record's derived state: end date, whether it is active,
  days remaining, the frequency phrase and the one-line description;
- the `Patient` class, which owns an ordered medication history that
  `prescribe` appends to and `removeMedication` deletes from in place;
- the `PatientStore` class, a set of patients in which patients with the same
  medical record number (MRN) count as equal.

The Dafny modules follow the Swift files:

| Dafny file | Swift file |
|---|---|
| `blood_type.dfy` (`BloodTypes`) | `CS342-A2/Model/BloodType.swift` |
| `dosage.dfy` (`Dosages`) | `CS342-A2/Models/Dosage.swift` |
| `medication_route.dfy` (`MedicationRoutes`) | `CS342-A2/Models/MedicationRoute.swift` |
| `medication.dfy` (`Medications`) | `CS342-A2/Models/Medication.swift` |
| `patient_error.dfy` (`PatientErrors`) | `CS342-A2/Models/PatientError.swift` |
| `medication_error.dfy` (`MedicationErrors`) | `CS342-A2/Models/MedicationError.swift` |
| `patient.dfy` (`Patients`) | `CS342-A2/Models/Patient.swift` |
| `patient_store.dfy` (`PatientStores`) | `CS342-A2/Models/PatientStore.swift` |
| `wrappers.dfy`, `decimal.dfy` | Swift optionals and `throws`; `"\(n)"` interpolation of an `Int` |

These modelling choices apply throughout:

- Time is an integer timestamp in seconds.
- A calendar day is a fixed 86 400 seconds.
- The current time `now` is an explicit parameter wherever Swift reads `.now`.
- `UUID()` becomes a natural number supplied by the caller. The model
  assumes it is fresh and does not check this.
- A throwing Swift call returns a `Result`, or an `Option` of the error
  when it returns nothing else.
- The store's `Set<Patient>` is a map from MRN to the stored patient. Swift
  patients compare and hash by MRN alone, so this map is the same set.

The model follows the code on four points where it is easy to misread:

- `prescribe` rejects a duplicate only when an active medication has the
  same name. The comparison is case-sensitive. The case-insensitive check
  exists only in the prescription form. Names compare character by character
  here (see "Left out").
- `PatientStore.add` of a patient whose MRN is already stored keeps the
  patient already there. Swift's `Set.insert` does not replace an equal member.
- Only the throwing initializer with millimetre/gram fields is modelled.
  The descending `currentMedications` variant belongs to a superseded
  revision and is not modelled.
- `currentMedications` sorts with Swift's `sorted(by:)`, which is stable.
  The model sorts by stable insertion, and its contract says that
  medications prescribed at the same time keep their history order.

## Model

| member | source | states |
|---|---|---|
| `BloodTypes.Tag` | CS342-A2/Model/BloodType.swift:11-18 | each tag is the ABO group named by the antigens the type carries ("AB", "A", "B" or "O"), followed by '+' exactly for the Rh-positive types |
| `BloodTypes.FromTag` | CS342-A2/Model/BloodType.swift:10-18 | parsing a raw tag gives the case with that tag, or nothing when no case has it |
| `BloodTypes.AllCasesEnumeratesEveryType` | CS342-A2/Model/BloodType.swift:10-18 | there are exactly 8 cases, each listed once in `allCases` |
| `BloodTypes.TagRoundTrip` | CS342-A2/Model/BloodType.swift:11-18 | tags are pairwise distinct, and parsing a case's tag yields that case |
| `BloodTypes.CompatibleBloodTypes` | CS342-A2/Model/BloodType.swift:20-39 | every recipient type lists itself and O-, and no row has duplicates |
| `BloodTypes.TableFollowsAntigenRule` | CS342-A2/Model/BloodType.swift:20-39 | a donor is in a recipient's row exactly when it carries no A, B or Rh antigen the recipient lacks |
| `BloodTypes.UniversalRecipient` | CS342-A2/Model/BloodType.swift:22-23 | AB+ receives from all 8 types |
| `BloodTypes.UniversalDonorReceivesOnlyItself` | CS342-A2/Model/BloodType.swift:36-37 | O- receives from O- only |
| `BloodTypes.RowSizes` | CS342-A2/Model/BloodType.swift:24-35 | rows have sizes A+ 4, A- 2, B+ 4, B- 2, O+ 2, AB- 4 |
| `BloodTypes.RhNegativeReceivesOnlyRhNegative` | CS342-A2/Model/BloodType.swift:24-37 | an Rh-negative recipient lists only Rh-negative donors |
| `Decimal.IntToString` | CS342-A2/Models/Dosage.swift:21 | the text is non-empty, ends in a digit, holds only digits apart from a leading '-', starts with '-' exactly for negative numbers, and is canonical: no leading zero and no "-0" |
| `Decimal.CanonicalParseUnique` | CS342-A2/Models/Dosage.swift:21 | a canonical numeral that parses back to `x` is exactly the rendering of `x`, so the description contracts that state a numeral as canonical and parsing back fix its text exactly |
| `Decimal.IntToStringRoundTrip` | CS342-A2/Models/Dosage.swift:21 | the decimal text of an `Int` parses back to the same integer |
| `Decimal.IntToStringInjective` | CS342-A2/Models/Dosage.swift:21 | distinct integers are printed differently |
| `Dosages.Symbol` | CS342-A2/Models/Dosage.swift:4-11 | the unit symbols have 1 to 3 characters, end in 'g' and contain no digit |
| `Dosages.Description` | CS342-A2/Models/Dosage.swift:20-22 | the text ends with the unit symbol, and what precedes it is a canonical numeral that parses back to the value |
| `Dosages.DescriptionInjective` | CS342-A2/Models/Dosage.swift:14-26 | two dosages have the same description exactly when value and unit are both equal |
| `Dosages.DescriptionExamples` | CS342-A2Tests/CS342_A2Tests.swift:255-264 | 81 mg is "81mg", 1 g is "1g", 100 mcg is "100mcg" |
| `MedicationRoutes.Phrase` | CS342-A2/Models/MedicationRoute.swift:1-8 | every route has a non-empty phrase |
| `MedicationRoutes.PhrasesDistinct` | CS342-A2/Models/MedicationRoute.swift:1-8 | distinct routes have distinct phrases |
| `MedicationErrors.Description` | CS342-A2/Models/MedicationError.swift:6-12 | the message is "Medication ", then the medication name, then " already prescribed and active" |
| `MedicationErrors.DescriptionInjective` | CS342-A2/Models/MedicationError.swift:6-12 | errors about different medications have different messages |
| `Medications.NewMedication` | CS342-A2/Models/Medication.swift:76-87 | the initializer stores every argument unchanged under a fresh id |
| `Medications.DistinctIdsDistinctMedications` | CS342-A2/Models/Medication.swift:91 | equality includes the id, so otherwise identical medications with different ids differ |
| `Medications.IsActive` | CS342-A2/Models/Medication.swift:48-53 | a medication is active exactly when `now` is before the prescription date plus `duration` days |
| `Medications.EndDate` | CS342-A2/Models/Medication.swift:56-58 | the end date is the prescription date plus `duration` days |
| `Medications.ActiveIffBeforeEndDate` | CS342-A2/Models/Medication.swift:48-58 | a medication is active exactly when `now` is before its end date |
| `Medications.ActiveEarlierIfActiveLater` | CS342-A2/Models/Medication.swift:48-53 | once a course has ended, it stays ended as time moves forward |
| `Medications.DaysRemaining` | CS342-A2/Models/Medication.swift:61-64 | 0 when inactive; when active, the whole number of days from `now` to the end date, hence at least 0 |
| `Medications.FreshCourseHasFullDuration` | CS342-A2/Models/Medication.swift:61-64 | a course of d > 0 days prescribed at `now` is active with d days remaining |
| `Medications.DosageDescription` | CS342-A2/Models/Medication.swift:67-73 | frequency 1 gives "once daily", 2 gives "twice daily", any other gives text ending in " times daily" whose start is a canonical numeral that parses back to the frequency |
| `Medications.DosageDescriptionExamples` | CS342-A2/Models/Medication.swift:67-73 | frequencies 1, 2 and 3 give "once daily", "twice daily" and "3 times daily" |
| `Medications.DosageDescriptionInjective` | CS342-A2/Models/Medication.swift:67-73 | "once daily", "twice daily" and "<n> times daily" describe distinct frequencies differently |
| `Medications.Description` | CS342-A2/Models/Medication.swift:94-96 | the description is the name, the dosage text, the route phrase and the frequency phrase, each followed by a space, then "for ", then a canonical numeral that parses back to the duration, then " days"; each part starts where the text before it ends |
| `Medications.DescriptionDeterminesDuration` | CS342-A2/Models/Medication.swift:94-96 | two medications with the same description have the same duration |
| `Medications.AspirinExample` | CS342-A2Tests/CS342_A2Tests.swift:64-87 | Aspirin 81 mg oral, once daily for 90 days, is "Aspirin 81mg by mouth once daily for 90 days", is active and has at least 89 days remaining |
| `Patients.ActiveOnly` | CS342-A2/Models/Patient.swift:66 | the filter keeps exactly the active medications |
| `Patients.ActiveOnlyAppend` | CS342-A2/Models/Patient.swift:66 | filtering a concatenation filters each part and concatenates the results, so the kept entries stay in history order |
| `Patients.ActiveOnlyCounts` | CS342-A2/Models/Patient.swift:66 | each active medication is kept as many times as it occurs, and no inactive one is kept |
| `Patients.InsertByDate` | CS342-A2/Models/Patient.swift:66 | inserting into a list sorted by date keeps it sorted and adds exactly that medication |
| `Patients.InsertByDateStable` | CS342-A2/Models/Patient.swift:66 | the inserted medication lands before the entries with its date, and entries with the same date keep their order |
| `Patients.SortByDate` | CS342-A2/Models/Patient.swift:66 | the result is sorted by nondecreasing prescription date, is a permutation of the input, and keeps the input order among entries with the same date |
| `Patients.SortKeepsTiesInOrder` | CS342-A2/Models/Patient.swift:66 | two medications prescribed at the same time are not swapped |
| `Patients.CurrentMedicationsExample` | CS342-A2Tests/CS342_A2Tests.swift:127-164 | of a new, an expired and a 100-day-old course, the current list is the old course, then the new one |
| `Patients.WithoutId` | CS342-A2/Models/Patient.swift:130-132 | the entries kept are exactly those whose id differs from the removed one |
| `Patients.WithoutIdAppend` | CS342-A2/Models/Patient.swift:130-132 | removal distributes over concatenation, so the kept entries stay in order |
| `Patients.WithoutAbsentId` | CS342-A2/Models/Patient.swift:130-132 | removing an id that no entry carries leaves the history unchanged |
| `Patients.NoDuplicateActiveLater` | CS342-A2/Models/Patient.swift:121-126 | if no two active medications share a name at one time, that still holds at any later time |
| `Patients.Patient.constructor` | CS342-A2/Models/Patient.swift:94-101 | every field is stored as given, and the history is empty |
| `Patients.Patient.Create` | CS342-A2/Models/Patient.swift:83-102 | fails with `futureDateOfBirth` exactly when the date of birth is after `now`; otherwise a fresh patient holds the given fields and an empty history |
| `Patients.Patient.FullNameAndAge` | CS342-A2/Models/Patient.swift:58-62 | the text is "Last, First (", then a canonical numeral that parses back to the age, then ")" |
| `Patients.FullNameAndAgeDeterminesAge` | CS342-A2/Models/Patient.swift:58-62 | the age can be read back: different ages give different text |
| `Patients.Patient.CurrentMedications` | CS342-A2/Models/Patient.swift:65-67 | the result is sorted by nondecreasing prescription date, holds exactly the active medications with their multiplicities, and keeps the history order among those prescribed at the same time |
| `Patients.Patient.CompatibleBloodTypes` | CS342-A2/Models/Patient.swift:70-72 | empty when the blood type is unknown; otherwise the table row, which contains the patient's own type |
| `Patients.Patient.Prescribe` | CS342-A2/Models/Patient.swift:121-126 | rejects with `duplicateMedication(name)` exactly when an active medication has the same name, and then leaves the history unchanged; otherwise appends at the end; either way, no two active medications share a name if that held before |
| `Patients.Patient.RemoveMedication` | CS342-A2/Models/Patient.swift:130-132 | the history becomes the old history without the entries that have the given id |
| `Patients.Patient.CanReceiveBlood` | CS342-A2/Models/Patient.swift:138-143 | fails with `invalidBloodTypeForTransfusion` exactly when either blood type is unknown; otherwise returns whether the donor's type is in the recipient's list, which is the antigen rule |
| `Patients.Patient.Equals` | CS342-A2/Models/Patient.swift:172-174 | two patients are equal exactly when their MRNs are, whatever their other fields; a patient equals itself |
| `Patients.EqualsIsEquivalence` | CS342-A2/Models/Patient.swift:172-179 | patient equality is the MRN equality and is an equivalence relation |
| `PatientStores.Inserted` | CS342-A2/Models/PatientStore.swift:14-16 | afterwards the MRN is present; when it was already present, the store and its member are unchanged; other MRNs are untouched; one patient per MRN is preserved |
| `PatientStores.Removed` | CS342-A2/Models/PatientStore.swift:20-22 | afterwards the MRN is absent; other MRNs are untouched; an absent MRN makes it a no-op |
| `PatientStores.FromSeq` | CS342-A2/Models/PatientStore.swift:8-10 | every given patient's MRN is stored once, under the first patient that has it |
| `PatientStores.AddThenRemoveRestores` | CS342-A2/Models/PatientStore.swift:14-22 | adding a patient with a new MRN and then removing it restores the store |
| `PatientStores.EqualPatientsCollapse` | CS342-A2/Models/PatientStore.swift:14-16 | inserting a second patient into a one-patient store leaves it unchanged exactly when the two patients are equal |
| `PatientStores.PatientStore.Members` | CS342-A2/Models/PatientStore.swift:5 | the members are exactly the stored patients, each filed under its own MRN |
| `PatientStores.PatientStore.constructor` | CS342-A2/Models/PatientStore.swift:8-10 | the store starts as the given list collapsed by MRN |
| `PatientStores.PatientStore.Add` | CS342-A2/Models/PatientStore.swift:14-16 | the new store is the insertion of the patient, and one patient per MRN still holds |
| `PatientStores.PatientStore.Remove` | CS342-A2/Models/PatientStore.swift:20-22 | the new store is the removal of the patient's MRN, and one patient per MRN still holds |

## Left out

- Calendar arithmetic: a day is a fixed 86 400 seconds, so time zones and daylight saving are not modelled. With a fixed day, date addition cannot fail. The fallbacks taken when it fails (`isActive` false, `endDate` equal to the prescription date, `daysRemaining` 0) are written out but never reached.
- Patients.Patient.FullNameAndAge: the age in whole calendar years is a parameter. The calendar-year difference between the date of birth and `now` is not computed.
- UUID generation: medication ids and MRNs are supplied by the caller. Their uniqueness is an assumption, not something the model checks.
- `dateOfBirthString` and the patient `description` are not modelled. They need `DateFormatter` and floating-point height/weight text.
- `Codable` encoding and decoding are not modelled, including `init(from:)`, `encode(to:)` and a serialization round trip. They are thin calls into Foundation encoders.
- Change notification is not modelled (`ObservableObject`, `@Published`, `@Observable`). Neither are the sample patients and the sample store.
- `hash(into:)` is not a separate member. Hashing uses the MRN, like `==`, and the store is keyed by MRN.
- Integer width: Swift's 64-bit `Int` is an unbounded `int` here. No stored field is combined arithmetically in a way that the source bounds.
- Patients.Patient.Prescribe: names are compared as sequences of characters. Swift's `String` `==` uses canonical equivalence, so "Café" written with U+00E9 and "Cafe" followed by U+0301 are the same name in Swift but different names here. Unicode normalisation is not modelled.
- The SwiftUI views and the app entry point are not modelled. This includes list search, form validation and the case-insensitive duplicate check in the prescription form.
- The superseded `CS342-A2/Model/Patient.swift`, `Model/Medication.swift` and `Model/Errors.swift` are not part of this model. Only the blood-type table is taken from `Model/`.
