/** The errors a patient operation can throw. */
module PatientErrors {

  datatype PatientError =
    | FutureDateOfBirth                // a patient cannot be born after "now"
    | InvalidBloodTypeForTransfusion   // a transfusion check with an unknown blood type
}
