/** The error thrown when prescribing a medication the patient already takes. */
module MedicationErrors {

  datatype MedicationError = DuplicateMedication(name: string)

  /** The human-readable message, naming the medication. */
  function Description(e: MedicationError): (s: string)
    ensures |s| == |e.name| + 41
    ensures s[..11] == "Medication "
    ensures s[11..|s| - 30] == e.name
    ensures s[|s| - 30..] == " already prescribed and active"
  {
    "Medication " + e.name + " already prescribed and active"
  }

  /** The message tells apart errors about different medications. */
  lemma DescriptionInjective(e1: MedicationError, e2: MedicationError)
    ensures Description(e1) == Description(e2) <==> e1 == e2
  {
  }
}
